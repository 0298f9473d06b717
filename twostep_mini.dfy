/**
  The short demonstration script psychopy/twostep.py: the same helpers and the
  same trial loop as the two-step script, over two trials, with a running tally
  of the rewards earned that is shown on screen after each outcome.
 */
module TwoStepMini {
  import opened Draws
  import opened Seqs
  import opened TwoStepScript

  /** The number of trials of the demonstration. */
  const NTrials: nat := 2

  /** The sum of the first n entries of the rewards array. */
  function RewardSum(rewards: seq<int>, n: nat): int
    requires n <= |rewards|
    decreases n
  {
    if n == 0 then 0 else RewardSum(rewards, n - 1) + rewards[n - 1]
  }

  /** Writing slot n leaves the sum of the slots before it alone. */
  lemma {:induction false} RewardSumFrame(rewards: seq<int>, n: nat, m: nat, r: int)
    requires n <= m < |rewards|
    ensures RewardSum(rewards[m := r], n) == RewardSum(rewards, n)
    decreases n
  {
    if n > 0 {
      RewardSumFrame(rewards, n - 1, m, r);
    }
  }

  /** The tally after recording reward r at slot n is the tally before plus r. */
  lemma RewardSumStep(rewards: seq<int>, n: nat, r: int)
    requires n < |rewards|
    ensures RewardSum(rewards[n := r], n + 1) == RewardSum(rewards, n) + r
  {
    RewardSumFrame(rewards, n, n, r);
  }

  /** With every reward 0 or 1, the tally counts the rewarded trials and lies in 0..n. */
  lemma {:induction false} RewardSumBounds(rewards: seq<int>, n: nat)
    requires n <= |rewards|
    requires forall k :: 0 <= k < n ==> rewards[k] == 0 || rewards[k] == 1
    ensures 0 <= RewardSum(rewards, n) <= n
    ensures RewardSum(rewards, n) == |set k | 0 <= k < n && rewards[k] == 1|
    decreases n
  {
    if n > 0 {
      RewardSumBounds(rewards, n - 1);
      var before := set k | 0 <= k < n - 1 && rewards[k] == 1;
      var after := set k | 0 <= k < n && rewards[k] == 1;
      if rewards[n - 1] == 1 {
        assert after == before + {n - 1};
      } else {
        assert after == before;
      }
    }
  }

  /** The tally is the sum of the rewards recorded in slots 0..t-1. */
  predicate TallyOk(rewards: seq<int>, t: nat, totalreward: int) {
    t <= |rewards| && totalreward == RewardSum(rewards, t)
  }

  /**
    One pass through the trial body of the demonstration: the trial body of the
    two-step script, then totalreward += reward. A timeout leaves the tally alone.
   */
  method PlayAndTally(paths: array<seq<real>>, states: array<int>, choices: array<seq<int>>, rewards: array<int>,
                      rt: array<seq<real>>, keyarray: array<seq<string>>, t: nat, p0: seq<real>,
                      ghost done: seq<Attempt>, a: Attempt, total0: int)
      returns (completed: bool, totalreward: int)
    requires paths != rt && states != rewards && WellFormed(a) && t < NTrials
    requires LoopOk(paths[..], states[..], choices[..], rewards[..], rt[..], keyarray[..], t, NTrials, p0, done)
    requires TallyOk(rewards[..], t, total0)
    modifies paths, states, choices, rewards, rt, keyarray
    ensures completed <==> Answered(a)
    ensures !completed ==>
      LoopOk(paths[..], states[..], choices[..], rewards[..], rt[..], keyarray[..], t, NTrials, p0, done)
    ensures !completed ==> totalreward == total0 && TallyOk(rewards[..], t, totalreward)
    ensures completed ==>
      LoopOk(paths[..], states[..], choices[..], rewards[..], rt[..], keyarray[..], t + 1, NTrials, p0, done + [a])
    ensures completed ==> TallyOk(rewards[..], t + 1, totalreward)
  {
    ghost var before := rewards[..];
    var reward;
    completed, reward := PlayTrial(paths, states, choices, rewards, rt, keyarray, t, NTrials, p0, done, a);
    totalreward := total0;
    if !completed {
      assert rewards[..] == before;
    } else {
      RewardSumStep(before, t, reward);
      totalreward := totalreward + reward;
    }
  }

  /** The inner loop, for trial in range(t, ntrials), of the demonstration. */
  method TrialsFrom(paths: array<seq<real>>, states: array<int>, choices: array<seq<int>>, rewards: array<int>,
                    rt: array<seq<real>>, keyarray: array<seq<string>>, t0: nat, p0: seq<real>,
                    attempts: seq<Attempt>, used0: nat, ghost done0: seq<Attempt>, total0: int)
      returns (t: nat, used: nat, ghost done: seq<Attempt>, totalreward: int)
    requires paths != rt && states != rewards && AllWellFormed(attempts)
    requires used0 <= |attempts| && done0 == Completed(attempts[..used0])
    requires LoopOk(paths[..], states[..], choices[..], rewards[..], rt[..], keyarray[..], t0, NTrials, p0, done0)
    requires TallyOk(rewards[..], t0, total0)
    modifies paths, states, choices, rewards, rt, keyarray
    ensures used0 <= used <= |attempts| && t0 <= t
    ensures t0 < NTrials && used0 < |attempts| ==> used0 < used
    ensures done == Completed(attempts[..used])
    ensures LoopOk(paths[..], states[..], choices[..], rewards[..], rt[..], keyarray[..], t, NTrials, p0, done)
    ensures TallyOk(rewards[..], t, totalreward)
  {
    t, used, done, totalreward := t0, used0, done0, total0;
    var trial := t0;
    while trial < NTrials && used < |attempts|
      invariant used0 <= used <= |attempts| && trial == t
      invariant t > t0 ==> used > used0
      invariant done == Completed(attempts[..used])
      invariant LoopOk(paths[..], states[..], choices[..], rewards[..], rt[..], keyarray[..], t, NTrials, p0, done)
      invariant TallyOk(rewards[..], t, totalreward)
    {
      var a := attempts[used];
      CompletedSnoc(attempts[..used], a);
      TakeOneMore(attempts, used);
      used := used + 1;
      var completed;
      completed, totalreward := PlayAndTally(paths, states, choices, rewards, rt, keyarray, t, p0, done, a, totalreward);
      if !completed {
        break;
      }
      done := done + [a];
      t := t + 1;
      trial := trial + 1;
    }
  }

  /**
    The demonstration: the two-step loop over NTrials slots, starting the tally
    at 0. When it ends, the tally is the number of rewarded trials.
   */
  method Session(u0: seq<real>, attempts: seq<Attempt>)
      returns (paths: array<seq<real>>, states: array<int>, choices: array<seq<int>>, rewards: array<int>,
               rt: array<seq<real>>, keyarray: array<seq<string>>, t: nat, used: nat, totalreward: int)
    requires |u0| == 4 && UnitDraws(u0) && AllWellFormed(attempts)
    ensures fresh(paths) && fresh(states) && fresh(choices) && fresh(rewards) && fresh(rt) && fresh(keyarray)
    ensures used <= |attempts| && (t < NTrials ==> used == |attempts|)
    ensures LoopOk(paths[..], states[..], choices[..], rewards[..], rt[..], keyarray[..], t, NTrials,
                   InitialRow(u0), Completed(attempts[..used]))
    ensures totalreward == RewardSum(rewards[..], t)
    ensures 0 <= totalreward <= t
  {
    var p0 := InitialRow(u0);
    paths, states, choices, rewards, rt, keyarray := Allocate(NTrials, p0);
    totalreward := 0;
    t, used := 0, 0;
    ghost var done: seq<Attempt> := [];
    assert attempts[..0] == [];
    while t <= NTrials - 1 && used < |attempts|
      invariant used <= |attempts| && done == Completed(attempts[..used])
      invariant LoopOk(paths[..], states[..], choices[..], rewards[..], rt[..], keyarray[..], t, NTrials, p0, done)
      invariant TallyOk(rewards[..], t, totalreward)
      decreases |attempts| - used
    {
      t, used, done, totalreward :=
        TrialsFrom(paths, states, choices, rewards, rt, keyarray, t, p0, attempts, used, done, totalreward);
    }
    RewardsAreBinary(rewards[..], t, NTrials, p0, done);
    RewardSumBounds(rewards[..], t);
  }

  /** Every reward a run records is 0 or 1. */
  lemma RewardsAreBinary(rewards: seq<int>, t: nat, ntrials: nat, p0: seq<real>, done: seq<Attempt>)
    requires |p0| == 4 && Played(done) && |done| == t
    requires SlotsOk(rewards, RewardOf, 0, t, ntrials, p0, done)
    ensures forall k :: 0 <= k < t ==> rewards[k] == 0 || rewards[k] == 1
  {
    forall k | 0 <= k < t
      ensures rewards[k] == 0 || rewards[k] == 1
    {
      assert rewards[k] == TrialAt(p0, done, k).reward;
    }
  }
}
