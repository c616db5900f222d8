/** Finalization and completion together: what is announced, in terms of the frames that became final. */
module Announcements {
  import opened Types
  import opened ManagerModel
  import opened Lifecycle
  import opened LifecycleRuns
  import Completion

  /** The i-th queued entry is for the frame that call `at[i]` made final; entries are queued in the
      order of those calls. */
  ghost predicate QueuedBy(pushed: seq<Completion.Entry>, ms: seq<Manager>, turns: seq<Turn>, at: seq<nat>) {
    && |at| == |pushed| && |ms| == |turns| + 1
    && (forall i | 0 <= i < |at| :: at[i] < |turns| && MakesFinal(ms[at[i]], turns[at[i]], pushed[i].frame))
    && (forall i, j | 0 <= i < j < |at| :: at[i] < at[j])
  }

  /** Between two queued entries, the frame of the first is never open to being forgotten. */
  ghost predicate NeverForgotten(pushed: seq<Completion.Entry>, ms: seq<Manager>, turns: seq<Turn>, at: seq<nat>)
    requires QueuedBy(pushed, ms, turns, at)
  {
    forall i, j | 0 <= i < j < |at| :: Remembered(ms, turns, at[i], at[j], pushed[i].frame)
  }

  lemma QueuedOnce(pushed: seq<Completion.Entry>, ms: seq<Manager>, turns: seq<Turn>, made: seq<seq<Anchor>>,
                   at: seq<nat>)
    requires LifecycleRuns.Trace(ms, turns, made) && Inv(ms[0]) && QueuedBy(pushed, ms, turns, at)
    requires NeverForgotten(pushed, ms, turns, at)
    ensures Completion.NoFrameTwice(pushed)
  {
    forall i, j | 0 <= i < j < |pushed| ensures pushed[i].frame != pushed[j].frame {
      FinalOnlyOnce(ms, turns, made, at[i], at[j], pushed[i].frame);
    }
  }

  /** As long as no finalized frame is forgotten before it could come again, every frame is announced
      at most once, in every interleaving of finalization and completion. */
  lemma AnnouncedOnce(states: seq<Completion.State>, steps: seq<Completion.Step>, start: nat, k: nat,
                      ms: seq<Manager>, turns: seq<Turn>, made: seq<seq<Anchor>>, at: seq<nat>)
    requires Completion.Trace(states, steps) && states[0] == Completion.Start(start) && k < |states|
    requires LifecycleRuns.Trace(ms, turns, made) && Inv(ms[0]) && QueuedBy(states[k].pushed, ms, turns, at)
    requires NeverForgotten(states[k].pushed, ms, turns, at)
    ensures Completion.NoFrameTwice(states[k].announced)
  {
    QueuedOnce(states[k].pushed, ms, turns, made, at);
    Completion.AnnouncedOnce(states, steps, start, k);
  }
}
