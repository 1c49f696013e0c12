/** Which system calls can be used at all: those whose input resources can be created by others. */
module Enable {
  /** A call, the resources it needs and, for each resource it makes, the kinds that one is of. */
  datatype Syscall = Syscall(id: nat, inputs: seq<string>, outputs: seq<seq<string>>)

  predicate Makes(c: Syscall, kind: string) { exists r <- c.outputs :: kind in r }

  /** Some call of s makes the kind. */
  ghost predicate Creatable(s: set<Syscall>, kind: string) { exists c <- s :: Makes(c, kind) }

  /** All inputs of c can be created by s. */
  ghost predicate Satisfied(c: Syscall, s: set<Syscall>) { forall r <- c.inputs :: Creatable(s, r) }

  /** s has every enabled call that s satisfies. */
  ghost predicate Closed(enabled: set<Syscall>, s: set<Syscall>) {
    s <= enabled && forall c <- enabled :: Satisfied(c, s) ==> c in s
  }

  /** s satisfies its own calls, and is within every closed set. */
  ghost predicate Least(enabled: set<Syscall>, s: set<Syscall>) {
    Closed(enabled, s) && (forall c <- s :: Satisfied(c, s)) && forall t :: Closed(enabled, t) ==> s <= t
  }

  /** There is only one such set, so the order of visits cannot matter. */
  lemma LeastIsUnique(enabled: set<Syscall>, s: set<Syscall>, t: set<Syscall>)
    requires Least(enabled, s) && Least(enabled, t)
    ensures s == t
  {
  }

  lemma MoreCreatable(s: set<Syscall>, t: set<Syscall>, kind: string)
    requires s <= t && Creatable(s, kind)
    ensures Creatable(t, kind)
  {
  }

  lemma MoreSatisfied(c: Syscall, s: set<Syscall>, t: set<Syscall>)
    requires s <= t && Satisfied(c, s)
    ensures Satisfied(c, t)
  {
    hide Creatable;
    forall r | r in c.inputs ensures Creatable(t, r) { MoreCreatable(s, t, r); }
  }

  /** The kinds that s can create. */
  ghost predicate Covers(canCreate: set<string>,
                         s: set<Syscall>) { forall k: string :: k in canCreate <==> Creatable(s, k) }

  /** A stage of the search: within every closed set, and every call satisfied by what there is. */
  ghost predicate Stage(enabled: set<Syscall>, s: set<Syscall>, canCreate: set<string>) {
    && s <= enabled && Covers(canCreate, s) && (forall c <- s :: Satisfied(c, s))
    && forall t :: Closed(enabled, t) ==> s <= t
  }

  /** Adding a satisfied call leads to another stage. */
  lemma StageAdds(enabled: set<Syscall>, s: set<Syscall>, canCreate: set<string>, c: Syscall, more: set<string>)
    requires Stage(enabled, s, canCreate) && c in enabled && Satisfied(c, s)
    requires forall k :: k in more <==> k in canCreate || Makes(c, k)
    ensures Stage(enabled, s + {c}, more)
  {
    var u := s + {c};
    forall k: string ensures k in more <==> Creatable(u, k) { CreatableWith(s, c, k); }
    forall d | d in u ensures Satisfied(d, u) { MoreSatisfied(d, s, u); }
    forall t | Closed(enabled, t) ensures u <= t { MoreSatisfied(c, s, t); }
  }

  lemma CreatableWith(s: set<Syscall>, c: Syscall, k: string)
    ensures Creatable(s + {c}, k) <==> Creatable(s, k) || Makes(c, k)
  {
    hide Makes;
  }

  lemma NothingYet(enabled: set<Syscall>)
    ensures Stage(enabled, {}, {})
  {
  }

  method Inputs(c: Syscall, canCreate: set<string>) returns (all: bool, missing: string)
    ensures all <==> forall r <- c.inputs :: r in canCreate
    ensures !all ==> missing in c.inputs && missing !in canCreate
  {
    missing := "";
    for i := 0 to |c.inputs|
      invariant forall k :: 0 <= k < i ==> c.inputs[k] in canCreate
    {
      if c.inputs[i] !in canCreate { return false, c.inputs[i]; }
    }
    all := true;
  }

  method AddKinds(c: Syscall, canCreate: set<string>) returns (more: set<string>)
    ensures forall k :: k in more <==> k in canCreate || Makes(c, k)
  {
    more := canCreate;
    for i := 0 to |c.outputs|
      invariant forall k :: k in more <==> k in canCreate || exists r <- c.outputs[..i] :: k in r
    {
      ghost var was := more;
      assert c.outputs[..i + 1] == c.outputs[..i] + [c.outputs[i]];
      more := more + (set k | k in c.outputs[i]);
    }
    assert c.outputs[..|c.outputs|] == c.outputs;
  }

  /** One pass over the enabled calls, in any order; nothing new is found only if nothing is left. */
  method Pass(enabled: set<Syscall>, s: set<Syscall>, can: set<string>) returns (supported: set<Syscall>,
              canCreate: set<string>)
    requires Stage(enabled, s, can)
    ensures Stage(enabled, supported, canCreate) && s <= supported
    ensures supported == s ==> Closed(enabled, s)
  {
    hide Stage, Satisfied;
    supported, canCreate := s, can;
    var todo := enabled;
    while todo != {}
      invariant todo <= enabled && s <= supported && Stage(enabled, supported, canCreate)
      invariant supported == s ==> forall c <- enabled - todo :: Satisfied(c, s) ==> c in s
    {
      var c :| c in todo;
      todo := todo - {c};
      if c !in supported {
        var all, missing := Inputs(c, canCreate);
        InputsSatisfied(enabled, supported, canCreate, c);
        if all {
          var more := AddKinds(c, canCreate);
          StageAdds(enabled, supported, canCreate, c, more);
          supported, canCreate := supported + {c}, more;
        }
      }
    }
    StageWithin(enabled, s, can);
  }

  lemma InputsSatisfied(enabled: set<Syscall>, s: set<Syscall>, canCreate: set<string>, c: Syscall)
    requires Stage(enabled, s, canCreate)
    ensures (forall r <- c.inputs :: r in canCreate) <==> Satisfied(c, s)
  {
    hide Creatable;
  }

  lemma StageWithin(enabled: set<Syscall>, s: set<Syscall>, canCreate: set<string>)
    requires Stage(enabled, s, canCreate)
    ensures s <= enabled
  {
  }

  /** transitivelyEnabled. */
  method TransitivelyEnabled(enabled: set<Syscall>) returns (supported: set<Syscall>, canCreate: set<string>)
    ensures Least(enabled, supported) && Covers(canCreate, supported)
  {
    hide Closed, Satisfied, Creatable;
    supported, canCreate := {}, {};
    NothingYet(enabled);
    while true
      invariant Stage(enabled, supported, canCreate)
      decreases |enabled| - |supported|
    {
      ghost var was := supported;
      var n := |supported|;
      supported, canCreate := Pass(enabled, supported, canCreate);
      SameSize(was, supported);
      SameSize(supported, enabled);
      if n == |supported| { break; }
    }
  }

  lemma SameSize(s: set<Syscall>, t: set<Syscall>)
    requires s <= t
    ensures |s| <= |t| && (|s| == |t| ==> s == t)
  {
    var d := t - s;
    assert t == s + d;
    assert |t| == |s| + |d|;
  }

  /** TransitivelyEnabledCalls: every enabled call is supported, or disabled for want of a resource. */
  method TransitivelyEnabledCalls(enabled: set<Syscall>) returns (supported: set<Syscall>,
                                  disabled: map<Syscall, string>)
    ensures Least(enabled, supported) && disabled.Keys == enabled - supported && |enabled| == |supported| + |disabled|
    ensures forall c :: c in disabled ==> disabled[c] in c.inputs && !Creatable(supported, disabled[c])
  {
    hide Closed, Satisfied, Creatable;
    var canCreate;
    supported, canCreate := TransitivelyEnabled(enabled);
    disabled := map[];
    var todo := enabled;
    while todo != {}
      invariant todo <= enabled && disabled.Keys == enabled - todo - supported
      invariant forall c :: c in disabled ==> disabled[c] in c.inputs && disabled[c] !in canCreate
    {
      var c :| c in todo;
      if c !in supported {
        var all, missing := Inputs(c, canCreate);
        LeftOut(enabled, supported, canCreate, c);
        disabled := disabled[c := missing];
      }
      todo := todo - {c};
    }
    LeastWithin(enabled, supported);
    SameParts(enabled, supported, disabled.Keys);
    assert |disabled| == |disabled.Keys|;
  }

  lemma LeastWithin(enabled: set<Syscall>, s: set<Syscall>)
    requires Least(enabled, s)
    ensures s <= enabled
  {
  }

  lemma LeftOut(enabled: set<Syscall>, s: set<Syscall>, canCreate: set<string>, c: Syscall)
    requires Least(enabled, s) && Covers(canCreate, s) && c in enabled && c !in s
    ensures !forall r <- c.inputs :: r in canCreate
  {
    hide Creatable;
    assert !Satisfied(c, s);
  }

  lemma SameParts(enabled: set<Syscall>, s: set<Syscall>, d: set<Syscall>)
    requires s <= enabled && d == enabled - s
    ensures |enabled| == |s| + |d|
  {
    assert enabled == s + d;
  }
}
