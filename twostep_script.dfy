/**
  The script form of the two-step task, psychopy/two-step/twostep.py: pure helpers
  for the stimulus order, the key-to-choice map, the transition, the reward-path
  update and the reward draw, and the experiment-proper trial loop, which replays
  the same trial slot after every timeout.
 */
module TwoStepScript {
  import opened Input
  import opened Draws
  import opened Seqs

  /** The number of practice trials and of trials to complete. */
  const NTrain: nat := 50
  const NTrials: nat := 201
  /** Bounds and step size of the reward-probability walk. */
  const LBound: real := 0.25
  const UBound: real := 0.75
  const SdRewardPath: real := 0.025
  /** The probability of moving to second-stage state 1 after each first-stage choice. */
  const PTrans: seq<real> := [0.3, 0.7]

  predicate IsOption(c: int) { c == 0 || c == 1 }

  /** The stimulus order drawrect returns: shuffle([0, 1]) with the one draw it consumes. */
  function StimOrder(u: real): (order: seq<int>)
    requires UnitDraw(u)
    ensures |order| == 2 && multiset(order) == multiset{0, 1}
  {
    ShuffledPermutes([0, 1], [u]);
    Shuffled([0, 1], [u])
  }

  /** The stimulus order is one of the two arrangements of the options, decided by the draw. */
  lemma StimOrderCases(u: real)
    requires UnitDraw(u)
    ensures StimOrder(u) == if u < 0.5 then [1, 0] else [0, 1]
  {
    ShufflePair(0, 1, u);
  }

  /** drawrect: the list [0, 1] shuffled in place; the drawing itself is not modelled. */
  method DrawRect(u: real) returns (stimorder: seq<int>)
    requires UnitDraw(u)
    ensures stimorder == StimOrder(u)
  {
    var a := new int[] [0, 1];
    assert a[..] == [0, 1];
    Shuffle(a, [u]);
    stimorder := a[..];
  }

  /** key2choice: 'f' picks the option shown on the left, 'j' the one on the right. */
  function Key2Choice(stimorder: seq<int>, key: Key): (choice: int)
    requires |stimorder| == 2
    ensures choice in stimorder
    ensures KeyName(key) == "f" ==> choice == stimorder[0]
    ensures KeyName(key) == "j" ==> choice == stimorder[1]
  {
    match key
    case F => stimorder[0]
    case J => stimorder[1]
  }

  /** Under any stimulus order the two keys select the two different options. */
  lemma KeysSelectDistinctOptions(u: real)
    requires UnitDraw(u)
    ensures IsOption(Key2Choice(StimOrder(u), F)) && IsOption(Key2Choice(StimOrder(u), J))
    ensures Key2Choice(StimOrder(u), F) != Key2Choice(StimOrder(u), J)
  {
    StimOrderCases(u);
  }

  /** transition: state 1 with probability ptrans[sel], from the unit draw u. */
  function Transition(sel: int, u: real): (state: int)
    requires IsOption(sel)
    ensures IsOption(state)
    ensures state == 1 <==> u < PTrans[sel]
  {
    Bernoulli(PTrans[sel], u)
  }

  /** The reward-path row of four probabilities stays inside [lbound, ubound]. */
  predicate InBounds(row: seq<real>) {
    |row| == 4 && forall i :: 0 <= i < 4 ==> LBound <= row[i] <= UBound
  }

  /** rewardpathupdate: a Gaussian step on all four probabilities, clamped elementwise. */
  function RewardPathUpdate(paths: seq<real>, z: seq<real>): (next: seq<real>)
    requires |paths| == 4 && |z| == 4
    ensures InBounds(next)
    ensures forall i :: 0 <= i < 4 && LBound <= paths[i] + SdRewardPath * z[i] <= UBound ==>
      next[i] == paths[i] + SdRewardPath * z[i]
  {
    seq(4, i requires 0 <= i < 4 => Clamp(paths[i] + SdRewardPath * z[i], LBound, UBound))
  }

  /** The flat index of option (state, choice) in a row of four probabilities. */
  function RewardIndex(state: int, choice: int): (i: nat)
    requires IsOption(state) && IsOption(choice)
    ensures i < 4
    ensures i / 2 == state && i % 2 == choice
  {
    2 * state + choice
  }

  /** rewardfunction: a binomial draw on the probability at index 2 * state + choice. */
  function RewardFunction(state: int, choice: int, paths: seq<real>, u: real): (reward: int)
    requires IsOption(state) && IsOption(choice) && |paths| == 4
    ensures reward == 0 || reward == 1
    ensures reward == 1 <==> u < paths[RewardIndex(state, choice)]
  {
    Bernoulli(paths[RewardIndex(state, choice)], u)
  }

  /** paths[0, :]: four uniform draws in [lbound, ubound]. */
  function InitialRow(u0: seq<real>): (row: seq<real>)
    requires |u0| == 4 && UnitDraws(u0)
    ensures InBounds(row)
  {
    [Uniform(LBound, UBound, u0[0]), Uniform(LBound, UBound, u0[1]),
     Uniform(LBound, UBound, u0[2]), Uniform(LBound, UBound, u0[3])]
  }

  /**
    What one pass through the trial body consumes: the shuffle draw and the
    response of each stage, the transition draw, the reward draw and the four
    normal draws of the path update (the inter-stimulus interval is left out).
   */
  datatype Attempt = Attempt(
    order1: real, press1: Option<Press>, trans: real,
    order2: real, press2: Option<Press>, reward: real, noise: seq<real>)

  predicate WellFormed(a: Attempt) {
    UnitDraw(a.order1) && UnitDraw(a.order2) && |a.noise| == 4
  }

  predicate AllWellFormed(xs: seq<Attempt>) {
    forall i :: 0 <= i < |xs| ==> WellFormed(xs[i])
  }

  /** Both deadlines were met, so the attempt becomes a trial. */
  predicate Answered(a: Attempt) {
    a.press1.Some? && a.press2.Some?
  }

  /** The attempts of a run that became trials, in order; a timed-out attempt leaves no trace. */
  function Completed(xs: seq<Attempt>): (done: seq<Attempt>)
    ensures |done| <= |xs|
    ensures AllWellFormed(xs) ==> Played(done)
    decreases |xs|
  {
    if xs == [] then []
    else
      var rest := Completed(xs[..|xs| - 1]);
      if Answered(xs[|xs| - 1]) then rest + [xs[|xs| - 1]] else rest
  }

  /** One more attempt adds a trial exactly when it was answered. */
  lemma CompletedSnoc(xs: seq<Attempt>, a: Attempt)
    ensures Completed(xs + [a]) == Completed(xs) + (if Answered(a) then [a] else [])
  {
    TakeSnoc(xs, a);
  }

  /** Every attempt became a trial exactly when none of them timed out. */
  lemma {:induction false} CompletedAllAnswered(xs: seq<Attempt>)
    ensures |Completed(xs)| == |xs| <==> forall i :: 0 <= i < |xs| ==> Answered(xs[i])
    decreases |xs|
  {
    if xs != [] {
      var front := xs[..|xs| - 1];
      CompletedAllAnswered(front);
      if forall i :: 0 <= i < |xs| ==> Answered(xs[i]) {
        assert forall i :: 0 <= i < |front| ==> Answered(front[i]) by {
          forall i | 0 <= i < |front| ensures Answered(front[i]) {
            assert front[i] == xs[i];
          }
        }
      } else if Answered(xs[|xs| - 1]) {
        var i :| 0 <= i < |xs| && !Answered(xs[i]);
        assert front[i] == xs[i];
      }
    }
  }

  /** Rows 0..|done| of the path array: row k + 1 is the update of row k with trial k's draws. */
  function PathRows(p0: seq<real>, done: seq<Attempt>): (rows: seq<seq<real>>)
    requires |p0| == 4 && AllWellFormed(done)
    ensures |rows| == |done| + 1 && rows[0] == p0
    ensures forall k :: 0 <= k < |rows| ==> |rows[k]| == 4
    ensures forall k :: 0 < k < |rows| ==> InBounds(rows[k])
    ensures InBounds(p0) ==> forall k :: 0 <= k < |rows| ==> InBounds(rows[k])
    decreases |done|
  {
    if done == [] then [p0]
    else
      var rows := PathRows(p0, done[..|done| - 1]);
      rows + [RewardPathUpdate(rows[|rows| - 1], done[|done| - 1].noise)]
  }

  /** Row k + 1 of the path array is the update of row k with the draws of trial k. */
  lemma {:induction false} PathRowsStep(p0: seq<real>, done: seq<Attempt>, k: nat)
    requires |p0| == 4 && AllWellFormed(done) && k < |done|
    ensures PathRows(p0, done)[k + 1] == RewardPathUpdate(PathRows(p0, done)[k], done[k].noise)
    decreases |done|
  {
    var front := done[..|done| - 1];
    assert AllWellFormed(front);
    if k < |done| - 1 {
      PathRowsStep(p0, front, k);
      assert front[k] == done[k];
    }
  }

  /** One more trial keeps the earlier rows and appends the update of the last one. */
  lemma PathRowsSnoc(p0: seq<real>, done: seq<Attempt>, a: Attempt)
    requires |p0| == 4 && AllWellFormed(done) && WellFormed(a)
    ensures AllWellFormed(done + [a])
    ensures PathRows(p0, done + [a]) == PathRows(p0, done) + [RewardPathUpdate(PathRows(p0, done)[|done|], a.noise)]
  {
    TakeSnoc(done, a);
  }

  /** A run of trials: every attempt in it is well formed and was answered at both stages. */
  predicate Played(done: seq<Attempt>) {
    forall i :: 0 <= i < |done| ==> WellFormed(done[i]) && Answered(done[i])
  }

  /** What the data arrays hold for one completed trial. */
  datatype Trial = Trial(state: int, choices: seq<int>, reward: int, rt: seq<real>, keys: seq<string>)

  /** The trial an answered attempt records, its reward drawn from the path row of its own slot. */
  function Record(a: Attempt, row: seq<real>): (tr: Trial)
    requires Answered(a) && WellFormed(a) && |row| == 4
    ensures IsOption(tr.state) && tr.reward in {0, 1}
    ensures |tr.choices| == 2 && IsOption(tr.choices[0]) && IsOption(tr.choices[1])
    ensures tr.state == Transition(tr.choices[0], a.trans)
    ensures tr.reward == RewardFunction(tr.state, tr.choices[1], row, a.reward)
    ensures tr.rt == [a.press1.value.rt, a.press2.value.rt]
    ensures tr.keys == [KeyName(a.press1.value.key), KeyName(a.press2.value.key)]
  {
    KeysSelectDistinctOptions(a.order1);
    KeysSelectDistinctOptions(a.order2);
    var c1 := Key2Choice(StimOrder(a.order1), a.press1.value.key);
    var s := Transition(c1, a.trans);
    var c2 := Key2Choice(StimOrder(a.order2), a.press2.value.key);
    Trial(s, [c1, c2], RewardFunction(s, c2, row, a.reward),
          [a.press1.value.rt, a.press2.value.rt],
          [KeyName(a.press1.value.key), KeyName(a.press2.value.key)])
  }

  /** The columns of the data arrays, one per field of a trial. */
  function StateOf(tr: Trial): int { tr.state }
  function ChoicesOf(tr: Trial): seq<int> { tr.choices }
  function RewardOf(tr: Trial): int { tr.reward }
  function RtOf(tr: Trial): seq<real> { tr.rt }
  function KeysOf(tr: Trial): seq<string> { tr.keys }

  /** Trial k of a run, as the data arrays record it. */
  function TrialAt(p0: seq<real>, done: seq<Attempt>, k: nat): Trial
    requires |p0| == 4 && Played(done) && k < |done|
  {
    Record(done[k], PathRows(p0, done)[k])
  }

  /** A later trial does not change the records of the earlier ones. */
  lemma TrialAtSnoc(p0: seq<real>, done: seq<Attempt>, a: Attempt)
    requires |p0| == 4 && Played(done) && WellFormed(a) && Answered(a)
    ensures Played(done + [a])
    ensures forall k :: 0 <= k < |done| ==> TrialAt(p0, done + [a], k) == TrialAt(p0, done, k)
    ensures TrialAt(p0, done + [a], |done|) == Record(a, PathRows(p0, done)[|done|])
  {
    PathRowsSnoc(p0, done, a);
  }

  /** Path rows 0..t follow the walk of the trials done; the rows after them are still zero. */
  predicate PathsOk(paths: seq<seq<real>>, t: nat, ntrials: nat, p0: seq<real>, done: seq<Attempt>)
    requires |p0| == 4 && AllWellFormed(done)
  {
    && |done| == t && t <= ntrials && |paths| == ntrials + 1
    && (forall k :: 0 <= k <= t ==> paths[k] == PathRows(p0, done)[k])
    && (forall k :: t < k <= ntrials ==> paths[k] == Zero4)
  }

  /** Slots 0..t-1 of one data array hold field f of the trials done; the later slots hold z. */
  predicate SlotsOk<T(==)>(col: seq<T>, f: Trial -> T, z: T, t: nat, ntrials: nat, p0: seq<real>, done: seq<Attempt>)
    requires |p0| == 4 && Played(done) && |done| == t
  {
    && t <= ntrials && |col| == ntrials
    && (forall k {:trigger TrialAt(p0, done, k)} :: 0 <= k < t ==> col[k] == f(TrialAt(p0, done, k)))
    && (forall k :: t <= k < ntrials ==> col[k] == z)
  }

  /**
    The loop's state after the trials done: slots 0..t-1 and path rows 0..t hold
    those trials, every later slot and row still holds np.zeros' zeros.
   */
  predicate LoopOk(paths: seq<seq<real>>, states: seq<int>, choices: seq<seq<int>>, rewards: seq<int>,
                   rt: seq<seq<real>>, keyarray: seq<seq<string>>, t: nat, ntrials: nat,
                   p0: seq<real>, done: seq<Attempt>)
  {
    && |p0| == 4 && Played(done) && |done| == t
    && PathsOk(paths, t, ntrials, p0, done)
    && SlotsOk(states, StateOf, 0, t, ntrials, p0, done)
    && SlotsOk(choices, ChoicesOf, [0, 0], t, ntrials, p0, done)
    && SlotsOk(rewards, RewardOf, 0, t, ntrials, p0, done)
    && SlotsOk(rt, RtOf, [0.0, 0.0], t, ntrials, p0, done)
    && SlotsOk(keyarray, KeysOf, ["", ""], t, ntrials, p0, done)
  }

  /** The zero rows np.zeros leaves in the arrays before the loop writes them. */
  const Zero4: seq<real> := [0.0, 0.0, 0.0, 0.0]

  lemma PathsStep(paths: seq<seq<real>>, t: nat, ntrials: nat, p0: seq<real>, done: seq<Attempt>, a: Attempt)
    requires |p0| == 4 && AllWellFormed(done) && WellFormed(a)
    requires PathsOk(paths, t, ntrials, p0, done) && t < ntrials
    ensures AllWellFormed(done + [a])
    ensures PathsOk(paths[t + 1 := RewardPathUpdate(paths[t], a.noise)], t + 1, ntrials, p0, done + [a])
  {
    PathRowsSnoc(p0, done, a);
  }

  lemma SlotsStep<T>(col: seq<T>, f: Trial -> T, z: T, t: nat, ntrials: nat, p0: seq<real>, done: seq<Attempt>,
                     a: Attempt)
    requires |p0| == 4 && Played(done) && |done| == t && WellFormed(a) && Answered(a)
    requires SlotsOk(col, f, z, t, ntrials, p0, done) && t < ntrials
    ensures Played(done + [a])
    ensures SlotsOk(col[t := f(Record(a, PathRows(p0, done)[t]))], f, z, t + 1, ntrials, p0, done + [a])
  {
    TrialAtSnoc(p0, done, a);
    var next := col[t := f(Record(a, PathRows(p0, done)[t]))];
    forall k | 0 <= k < t + 1
      ensures next[k] == f(TrialAt(p0, done + [a], k))
    {
      if k < t {
        assert next[k] == col[k];
      }
    }
    forall k | t + 1 <= k < ntrials
      ensures next[k] == z
    {
      assert next[k] == col[k];
    }
  }

  /** Writing trial t at slot t and the update at row t + 1 extends the loop state by that trial. */
  lemma LoopOkStep(paths: seq<seq<real>>, states: seq<int>, choices: seq<seq<int>>, rewards: seq<int>,
                   rt: seq<seq<real>>, keyarray: seq<seq<string>>, t: nat, ntrials: nat,
                   p0: seq<real>, done: seq<Attempt>, a: Attempt, tr: Trial,
                   paths': seq<seq<real>>, states': seq<int>, choices': seq<seq<int>>, rewards': seq<int>,
                   rt': seq<seq<real>>, keyarray': seq<seq<string>>)
    requires LoopOk(paths, states, choices, rewards, rt, keyarray, t, ntrials, p0, done)
    requires t < ntrials && WellFormed(a) && Answered(a) && tr == Record(a, paths[t])
    requires paths' == paths[t + 1 := RewardPathUpdate(paths[t], a.noise)]
    requires states' == states[t := tr.state] && choices' == choices[t := tr.choices]
    requires rewards' == rewards[t := tr.reward] && rt' == rt[t := tr.rt] && keyarray' == keyarray[t := tr.keys]
    ensures LoopOk(paths', states', choices', rewards', rt', keyarray', t + 1, ntrials, p0, done + [a])
  {
    assert paths[t] == PathRows(p0, done)[t];
    PathsStep(paths, t, ntrials, p0, done, a);
    SlotsStep(states, StateOf, 0, t, ntrials, p0, done, a);
    SlotsStep(choices, ChoicesOf, [0, 0], t, ntrials, p0, done, a);
    SlotsStep(rewards, RewardOf, 0, t, ntrials, p0, done, a);
    SlotsStep(rt, RtOf, [0.0, 0.0], t, ntrials, p0, done, a);
    SlotsStep(keyarray, KeysOf, ["", ""], t, ntrials, p0, done, a);
  }

  /** The assignments that record trial t: row t + 1 of the paths and slot t of the data arrays. */
  method Store(paths: array<seq<real>>, states: array<int>, choices: array<seq<int>>, rewards: array<int>,
               rt: array<seq<real>>, keyarray: array<seq<string>>, t: nat, next: seq<real>, tr: Trial)
    requires paths != rt && states != rewards
    requires t + 1 < paths.Length && t < states.Length && t < choices.Length
    requires t < rewards.Length && t < rt.Length && t < keyarray.Length
    modifies paths, states, choices, rewards, rt, keyarray
    ensures paths[..] == old(paths[..])[t + 1 := next]
    ensures states[..] == old(states[..])[t := tr.state]
    ensures choices[..] == old(choices[..])[t := tr.choices]
    ensures rewards[..] == old(rewards[..])[t := tr.reward]
    ensures rt[..] == old(rt[..])[t := tr.rt]
    ensures keyarray[..] == old(keyarray[..])[t := tr.keys]
  {
    paths[t + 1] := next;
    states[t] := tr.state;
    choices[t] := tr.choices;
    rewards[t] := tr.reward;
    rt[t] := tr.rt;
    keyarray[t] := tr.keys;
  }

  /**
    One pass through the body of the trial loop at slot t: show the first stage,
    read the response, make the transition, show the second stage, read the
    response, draw the reward from row t and record the trial. A timeout at either
    stage returns at once with nothing written: the caller then leaves its inner loop.
   */
  method PlayTrial(paths: array<seq<real>>, states: array<int>, choices: array<seq<int>>, rewards: array<int>,
                   rt: array<seq<real>>, keyarray: array<seq<string>>, t: nat, ntrials: nat,
                   p0: seq<real>, ghost done: seq<Attempt>, a: Attempt)
      returns (completed: bool, reward: int)
    requires paths != rt && states != rewards && WellFormed(a) && t < ntrials
    requires LoopOk(paths[..], states[..], choices[..], rewards[..], rt[..], keyarray[..], t, ntrials, p0, done)
    modifies paths, states, choices, rewards, rt, keyarray
    ensures completed <==> Answered(a)
    ensures !completed ==> unchanged(paths, states, choices, rewards, rt, keyarray)
    ensures !completed ==>
      LoopOk(paths[..], states[..], choices[..], rewards[..], rt[..], keyarray[..], t, ntrials, p0, done)
    ensures completed ==>
      LoopOk(paths[..], states[..], choices[..], rewards[..], rt[..], keyarray[..], t + 1, ntrials, p0, done + [a])
    ensures completed ==> rewards[..] == old(rewards[..])[t := reward]
  {
    var stimorder := DrawRect(a.order1);
    if a.press1.None? {
      return false, 0;
    }
    var step1key := a.press1.value.key;
    var step1choice := Key2Choice(stimorder, step1key);
    var step1rt := a.press1.value.rt;
    KeysSelectDistinctOptions(a.order1);
    var step2state := Transition(step1choice, a.trans);
    stimorder := DrawRect(a.order2);
    if a.press2.None? {
      return false, 0;
    }
    var step2key := a.press2.value.key;
    var step2choice := Key2Choice(stimorder, step2key);
    var step2rt := a.press2.value.rt;
    KeysSelectDistinctOptions(a.order2);
    reward := RewardFunction(step2state, step2choice, paths[t], a.reward);
    var tr := Trial(step2state, [step1choice, step2choice], reward, [step1rt, step2rt],
                    [KeyName(step1key), KeyName(step2key)]);
    assert tr == Record(a, paths[t]);
    ghost var pre := (paths[..], states[..], choices[..], rewards[..], rt[..], keyarray[..]);
    Store(paths, states, choices, rewards, rt, keyarray, t, RewardPathUpdate(paths[t], a.noise), tr);
    LoopOkStep(pre.0, pre.1, pre.2, pre.3, pre.4, pre.5, t, ntrials, p0, done, a, tr,
               paths[..], states[..], choices[..], rewards[..], rt[..], keyarray[..]);
    completed := true;
  }

  /** The arrays np.zeros allocates before the loop, with row 0 of the paths drawn. */
  method Allocate(ntrials: nat, p0: seq<real>)
      returns (paths: array<seq<real>>, states: array<int>, choices: array<seq<int>>, rewards: array<int>,
               rt: array<seq<real>>, keyarray: array<seq<string>>)
    requires |p0| == 4
    ensures fresh(paths) && fresh(states) && fresh(choices) && fresh(rewards) && fresh(rt) && fresh(keyarray)
    ensures paths != rt && states != rewards
    ensures LoopOk(paths[..], states[..], choices[..], rewards[..], rt[..], keyarray[..], 0, ntrials, p0, [])
  {
    paths := new seq<real>[ntrials + 1](_ => Zero4);
    paths[0] := p0;
    states := new int[ntrials](_ => 0);
    choices := new seq<int>[ntrials](_ => [0, 0]);
    rewards := new int[ntrials](_ => 0);
    rt := new seq<real>[ntrials](_ => [0.0, 0.0]);
    keyarray := new seq<string>[ntrials](_ => ["", ""]);
  }

  /**
    The inner loop, for trial in range(t, ntrials): play slot after slot until
    the last slot is filled, a stage times out or the attempts run out. Returns the
    new slot counter and the number of attempts consumed in all.
   */
  method TrialsFrom(paths: array<seq<real>>, states: array<int>, choices: array<seq<int>>, rewards: array<int>,
                    rt: array<seq<real>>, keyarray: array<seq<string>>, t0: nat, ntrials: nat,
                    p0: seq<real>, attempts: seq<Attempt>, used0: nat, ghost done0: seq<Attempt>)
      returns (t: nat, used: nat, ghost done: seq<Attempt>)
    requires paths != rt && states != rewards && AllWellFormed(attempts)
    requires used0 <= |attempts| && done0 == Completed(attempts[..used0])
    requires LoopOk(paths[..], states[..], choices[..], rewards[..], rt[..], keyarray[..], t0, ntrials, p0, done0)
    modifies paths, states, choices, rewards, rt, keyarray
    ensures used0 <= used <= |attempts| && t0 <= t
    ensures t0 < ntrials && used0 < |attempts| ==> used0 < used
    ensures done == Completed(attempts[..used])
    ensures LoopOk(paths[..], states[..], choices[..], rewards[..], rt[..], keyarray[..], t, ntrials, p0, done)
  {
    t, used, done := t0, used0, done0;
    var trial := t0;
    while trial < ntrials && used < |attempts|
      invariant used0 <= used <= |attempts| && trial == t
      invariant t > t0 ==> used > used0
      invariant done == Completed(attempts[..used])
      invariant LoopOk(paths[..], states[..], choices[..], rewards[..], rt[..], keyarray[..], t, ntrials, p0, done)
    {
      var a := attempts[used];
      CompletedSnoc(attempts[..used], a);
      TakeOneMore(attempts, used);
      used := used + 1;
      var completed, _ := PlayTrial(paths, states, choices, rewards, rt, keyarray, t, ntrials, p0, done, a);
      if !completed {
        break;
      }
      done := done + [a];
      t := t + 1;
      trial := trial + 1;
    }
  }

  /**
    The experiment-proper loop: while slots are left, run trials from slot t on;
    a timeout at either stage breaks out of the inner loop with t, the paths and
    the data arrays untouched, so the outer loop replays slot t. The loop also
    stops when the attempts run out.
   */
  method Experiment(ntrials: nat, u0: seq<real>, attempts: seq<Attempt>)
      returns (paths: array<seq<real>>, states: array<int>, choices: array<seq<int>>, rewards: array<int>,
               rt: array<seq<real>>, keyarray: array<seq<string>>, t: nat, used: nat)
    requires |u0| == 4 && UnitDraws(u0) && AllWellFormed(attempts)
    ensures fresh(paths) && fresh(states) && fresh(choices) && fresh(rewards) && fresh(rt) && fresh(keyarray)
    ensures used <= |attempts| && (t < ntrials ==> used == |attempts|)
    ensures LoopOk(paths[..], states[..], choices[..], rewards[..], rt[..], keyarray[..], t, ntrials,
                   InitialRow(u0), Completed(attempts[..used]))
  {
    var p0 := InitialRow(u0);
    paths, states, choices, rewards, rt, keyarray := Allocate(ntrials, p0);
    t, used := 0, 0;
    ghost var done: seq<Attempt> := [];
    assert attempts[..0] == [];
    while t <= ntrials - 1 && used < |attempts|
      invariant used <= |attempts| && done == Completed(attempts[..used])
      invariant LoopOk(paths[..], states[..], choices[..], rewards[..], rt[..], keyarray[..], t, ntrials, p0, done)
      decreases |attempts| - used
    {
      t, used, done := TrialsFrom(paths, states, choices, rewards, rt, keyarray, t, ntrials, p0, attempts, used, done);
    }
  }

  /**
    One pass through the practice trial loop at slot t: the same two stages and
    reward draw, but only the path array is written. The reward is bound only
    to stand for the outcome the source displays; nothing stores it.
   */
  method PracticeTrial(paths: array<seq<real>>, t: nat, ntrain: nat, p0: seq<real>,
                       ghost done: seq<Attempt>, a: Attempt)
      returns (completed: bool)
    requires |p0| == 4 && AllWellFormed(done) && WellFormed(a) && t < ntrain
    requires PathsOk(paths[..], t, ntrain, p0, done)
    modifies paths
    ensures completed <==> Answered(a)
    ensures AllWellFormed(done + [a])
    ensures !completed ==> unchanged(paths) && PathsOk(paths[..], t, ntrain, p0, done)
    ensures completed ==> PathsOk(paths[..], t + 1, ntrain, p0, done + [a])
  {
    PathsStep(paths[..], t, ntrain, p0, done, a);
    var stimorder := DrawRect(a.order1);
    if a.press1.None? {
      return false;
    }
    var step1choice := Key2Choice(stimorder, a.press1.value.key);
    KeysSelectDistinctOptions(a.order1);
    var step2state := Transition(step1choice, a.trans);
    stimorder := DrawRect(a.order2);
    if a.press2.None? {
      return false;
    }
    var step2choice := Key2Choice(stimorder, a.press2.value.key);
    KeysSelectDistinctOptions(a.order2);
    var reward := RewardFunction(step2state, step2choice, paths[t], a.reward);
    paths[t + 1] := RewardPathUpdate(paths[t], a.noise);
    completed := true;
  }

  /** The inner practice loop, for trial in range(t, ntrain). */
  method PracticeFrom(paths: array<seq<real>>, t0: nat, ntrain: nat, p0: seq<real>,
                      attempts: seq<Attempt>, used0: nat, ghost done0: seq<Attempt>)
      returns (t: nat, used: nat, ghost done: seq<Attempt>)
    requires |p0| == 4 && AllWellFormed(attempts)
    requires used0 <= |attempts| && done0 == Completed(attempts[..used0]) && AllWellFormed(done0)
    requires PathsOk(paths[..], t0, ntrain, p0, done0)
    modifies paths
    ensures used0 <= used <= |attempts| && t0 <= t
    ensures t0 < ntrain && used0 < |attempts| ==> used0 < used
    ensures done == Completed(attempts[..used]) && AllWellFormed(done)
    ensures PathsOk(paths[..], t, ntrain, p0, done)
  {
    t, used, done := t0, used0, done0;
    var trial := t0;
    // timedout stands for the source's break out of the loop on a timeout.
    var timedout := false;
    while trial < ntrain && used < |attempts| && !timedout
      invariant used0 <= used <= |attempts| && t0 <= t && trial == t
      invariant t > t0 ==> used > used0
      invariant timedout ==> used > used0
      invariant done == Completed(attempts[..used]) && AllWellFormed(done)
      invariant PathsOk(paths[..], t, ntrain, p0, done)
      decreases |attempts| - used
    {
      var a := attempts[used];
      CompletedSnoc(attempts[..used], a);
      TakeOneMore(attempts, used);
      used := used + 1;
      var completed := PracticeTrial(paths, t, ntrain, p0, done, a);
      if completed {
        done := done + [a];
        t := t + 1;
        trial := trial + 1;
      } else {
        timedout := true;
      }
    }
  }

  /**
    The practice loop: the experiment-proper loop over ntrain slots on a path
    array of its own, with no data arrays.
   */
  method Practice(ntrain: nat, u0: seq<real>, attempts: seq<Attempt>)
      returns (paths: array<seq<real>>, t: nat, used: nat)
    requires |u0| == 4 && UnitDraws(u0) && AllWellFormed(attempts)
    ensures fresh(paths)
    ensures used <= |attempts| && (t < ntrain ==> used == |attempts|)
    ensures AllWellFormed(Completed(attempts[..used]))
    ensures PathsOk(paths[..], t, ntrain, InitialRow(u0), Completed(attempts[..used]))
  {
    var p0 := InitialRow(u0);
    paths := new seq<real>[ntrain + 1](_ => Zero4);
    paths[0] := p0;
    t, used := 0, 0;
    ghost var done: seq<Attempt> := [];
    assert attempts[..0] == [];
    while t <= ntrain - 1 && used < |attempts|
      invariant used <= |attempts| && done == Completed(attempts[..used]) && AllWellFormed(done)
      invariant PathsOk(paths[..], t, ntrain, p0, done)
      decreases |attempts| - used
    {
      t, used, done := PracticeFrom(paths, t, ntrain, p0, attempts, used, done);
    }
  }
}
