/** Runs as a relation between states, for code that takes its steps one call at a time. */
module Reach {
  import opened Domain
  import opened Protocol
  import opened Invariant
  import opened Preservation

  ghost predicate Joins(cfg: Config, b: Behavior, s: State, s': State) {
    Linked(cfg, b) && b.states[0] == s && b.states[|b.acts|] == s'
  }

  /** Some run leads from `s` to `s'`. */
  ghost predicate Reaches(cfg: Config, s: State, s': State) {
    exists b :: Joins(cfg, b, s, s')
  }

  lemma ReachesSelf(cfg: Config, s: State)
    ensures Reaches(cfg, s, s)
  {
    assert Joins(cfg, Behavior([s], []), s, s);
  }

  lemma ReachesStep(cfg: Config, s: State, m: State, a: Action)
    requires Reaches(cfg, s, m) && Enabled(cfg, m, a)
    ensures Reaches(cfg, s, Apply(cfg, m, a))
  {
    var b :| Joins(cfg, b, s, m);
    var b' := Behavior(b.states + [Apply(cfg, m, a)], b.acts + [a]);
    forall k | 0 <= k < |b'.acts| ensures Follows(cfg, b', k) {
      if k < |b.acts| { assert Follows(cfg, b, k); }
    }
    assert Joins(cfg, b', s, Apply(cfg, m, a));
  }

  lemma ReachesTransitive(cfg: Config, s: State, m: State, s': State)
    requires Reaches(cfg, s, m) && Reaches(cfg, m, s')
    ensures Reaches(cfg, s, s')
  {
    var b :| Joins(cfg, b, s, m);
    var c :| Joins(cfg, c, m, s');
    var d := Behavior(b.states + c.states[1..], b.acts + c.acts);
    forall k | 0 <= k < |d.acts| ensures Follows(cfg, d, k) {
      if k < |b.acts| {
        assert Follows(cfg, b, k);
      } else {
        assert Follows(cfg, c, k - |b.acts|);
        assert d.states[k + 1] == c.states[k + 1 - |b.acts|];
        assert d.states[k] == c.states[k - |b.acts|];
      }
    }
    assert Joins(cfg, d, s, s');
  }

  lemma ReachableKeepsInv(cfg: Config, s: State)
    requires Reaches(cfg, INIT, s)
    ensures Inv(cfg, s)
  {
    var b :| Joins(cfg, b, INIT, s);
    RunKeepsInv(cfg, b, |b.acts|);
  }
}
