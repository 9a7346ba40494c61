/** Driving a loop by a script of labels: what it means to follow the script to the letter. */
module Scripts {
  import opened Prelude

  /** From s on, the labels can be taken one after another, and the last of them ends the run. */
  ghost predicate Playable<S, L>(step: (S, L) -> Option<S>, over: S -> bool, s: S, labels: seq<L>)
    decreases |labels|
  {
    if labels == [] then over(s)
    else !over(s) && step(s, labels[0]).Some? && Playable(step, over, step(s, labels[0]).value, labels[1..])
  }

  /** If the script is the labels of a run from start to its end, then `done` and `rest` are that script, and
      `rest` leads from s to the end. */
  ghost predicate Follows<S, L>(step: (S, L) -> Option<S>, over: S -> bool, start: S, script: seq<L>,
                                done: seq<L>, rest: seq<L>, s: S) {
    Playable(step, over, start, script) ==> done + rest == script && Playable(step, over, s, rest)
  }

  lemma FollowsStep<S, L>(step: (S, L) -> Option<S>, over: S -> bool, start: S, script: seq<L>,
                          done: seq<L>, rest: seq<L>, s: S, s': S)
    requires Follows(step, over, start, script, done, rest, s) && rest != [] && step(s, rest[0]) == Some(s')
    ensures Follows(step, over, start, script, done + [rest[0]], rest[1..], s')
  {
    assert done + [rest[0]] + rest[1..] == done + rest;
  }

  /** A script that names an impossible step, or stops early, is not the labels of such a run. */
  lemma NotPlayable<S, L>(step: (S, L) -> Option<S>, over: S -> bool, start: S, script: seq<L>,
                          done: seq<L>, rest: seq<L>, s: S)
    requires Follows(step, over, start, script, done, rest, s) && !over(s)
    requires rest == [] || step(s, rest[0]).None?
    ensures !Playable(step, over, start, script)
  {
  }

  /** At the end of the run a script that could be followed has been used up. */
  lemma FollowedToTheEnd<S, L>(step: (S, L) -> Option<S>, over: S -> bool, start: S, script: seq<L>,
                               done: seq<L>, rest: seq<L>, s: S)
    requires Follows(step, over, start, script, done, rest, s) && over(s)
    ensures Playable(step, over, start, script) ==> done == script
  {
    assert rest == [] ==> done + rest == done;
  }
}
