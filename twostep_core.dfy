/**
  The class-based two-step task engine: class Trials of
  psychopy/two-step-original/twostepcore.py.

  Four reward-probability paths, one per second-stage option, are generated for
  the whole block up front as clamped Gaussian walks. Each trial appends a row
  to every data column. A trial without a key press before the deadline is
  aborted: its remaining cells are padded with sentinels, the trial counter
  still advances, the block grows by one trial and every path by one entry.
 */
module TwoStepCore {
  import opened Input
  import opened Draws
  import opened Seqs

  /** A cell of a data column: the source's lists hold numbers, NaN and marker strings side by side. */
  datatype Cell<T> = Val(v: T) | NaN | Marker(text: string)

  /** The data dict of lists, one field per column. */
  datatype Data = Data(
    trial: seq<int>,
    aborted: seq<int>,
    a1: seq<int>,
    a1Key: seq<Cell<Key>>,
    rt1: seq<Cell<real>>,
    s2: seq<int>,
    transCr: seq<Cell<int>>,
    a2: seq<int>,
    a2Key: seq<Cell<Key>>,
    rt2: seq<Cell<real>>,
    r: seq<Cell<int>>)

  /** The column lengths, by the phase of the trial that fills them. */
  predicate Shape(d: Data, started: nat, chosen1: nat, moved: nat, chosen2: nat, rewarded: nat) {
    && |d.trial| == started && |d.aborted| == started
    && |d.a1| == chosen1 && |d.a1Key| == chosen1 && |d.rt1| == chosen1
    && |d.s2| == moved && |d.transCr| == moved
    && |d.a2| == chosen2 && |d.a2Key| == chosen2 && |d.rt2| == chosen2
    && |d.r| == rewarded
  }

  const EmptyData := Data([], [], [], [], [], [], [], [], [], [], [])

  predicate IsChoice(a: int) { a == 0 || a == 1 }

  predicate IsState2(s: int) { s == 1 || s == 2 }

  /** The transition probabilities of first-stage option a1 (states[0][a1]['ptrans']). */
  function TransitionRow(ptrans: real, a1: int): (row: seq<real>)
    requires IsChoice(a1)
    ensures |row| == 2 && row[0] + row[1] == 1.0
    ensures row[a1] == ptrans && row[1 - a1] == 1.0 - ptrans
  {
    if a1 == 0 then [ptrans, 1.0 - ptrans] else [1.0 - ptrans, ptrans]
  }

  /** The second-stage state, argmax(multinomial(1, p_trans)) + 1, for the unit draw u. */
  function Transition(ptrans: real, a1: int, u: real): (s2: int)
    requires IsChoice(a1)
    ensures IsState2(s2)
    ensures s2 == 1 <==> u < TransitionRow(ptrans, a1)[0]
  {
    ArgmaxInt(Multinomial1(TransitionRow(ptrans, a1)[0], u)) + 1
  }

  /** trans_cr: 1 (common) when s2 - 1 is the argmax of the chosen row, else 0 (rare). */
  function TransitionClass(ptrans: real, a1: int, s2: int): (cr: int)
    requires IsChoice(a1)
    ensures cr == 0 || cr == 1
    ensures cr == 1 <==> s2 - 1 == ArgmaxReal(TransitionRow(ptrans, a1))
  {
    if s2 - 1 == ArgmaxReal(TransitionRow(ptrans, a1)) then 1 else 0
  }

  /** With ptrans above one half, a transition is common exactly when option a1 leads to state a1 + 1. */
  lemma CommonIsOwnState(ptrans: real, a1: int, s2: int)
    requires 0.5 < ptrans && IsChoice(a1) && IsState2(s2)
    ensures TransitionClass(ptrans, a1, s2) == 1 <==> s2 == a1 + 1
  {
  }

  /**
    The common transition happens on a set of unit draws of measure ptrans:
    [0, ptrans) after option 0 and [1 - ptrans, 1) after option 1.
   */
  lemma CommonDraws(ptrans: real, a1: int, u: real)
    requires 0.5 < ptrans <= 1.0 && IsChoice(a1) && UnitDraw(u)
    ensures TransitionClass(ptrans, a1, Transition(ptrans, a1, u)) == 1
        <==> (if a1 == 0 then u < ptrans else 1.0 - ptrans <= u)
  {
    CommonIsOwnState(ptrans, a1, Transition(ptrans, a1, u));
  }

  /** With ptrans one half both rows tie, np.argmax picks 0, and only state 1 counts as common. */
  lemma EvenTableCommonIsState1(a1: int, s2: int)
    requires IsChoice(a1) && IsState2(s2)
    ensures TransitionClass(0.5, a1, s2) == 1 <==> s2 == 1
  {
  }

  /** The flat index of second-stage option (s2, a2) in the four reward paths. */
  function OptionIndex(s2: int, a2: int): (o: nat)
    requires IsState2(s2) && IsChoice(a2)
    ensures o < 4
    ensures o / 2 == s2 - 1 && o % 2 == a2
  {
    2 * (s2 - 1) + a2
  }

  /** One clamped Gaussian step of a reward path: max(min(x + sd * z, hi), lo). */
  function WalkStep(x: real, z: real, lo: real, hi: real, sd: real): (y: real)
    ensures lo <= hi ==> lo <= y <= hi
    ensures lo <= x + sd * z <= hi ==> y == x + sd * z
  {
    Clamp(x + sd * z, lo, hi)
  }

  /** A reward path that starts at x0 and takes one WalkStep per normal draw in zs. */
  function Walk(x0: real, zs: seq<real>, lo: real, hi: real, sd: real): (w: seq<real>)
    ensures |w| == |zs| + 1 && w[0] == x0
    decreases |zs|
  {
    if zs == [] then [x0]
    else
      var w := Walk(x0, zs[..|zs| - 1], lo, hi, sd);
      w + [WalkStep(w[|w| - 1], zs[|zs| - 1], lo, hi, sd)]
  }

  predicate InBounds(w: seq<real>, lo: real, hi: real) {
    forall k :: 0 <= k < |w| ==> lo <= w[k] <= hi
  }

  /** Every entry of a walk that starts within the bounds stays within them, whatever the draws. */
  lemma {:induction false} WalkInBounds(x0: real, zs: seq<real>, lo: real, hi: real, sd: real)
    requires lo <= x0 <= hi
    ensures InBounds(Walk(x0, zs, lo, hi, sd), lo, hi)
    decreases |zs|
  {
    if zs != [] {
      WalkInBounds(x0, zs[..|zs| - 1], lo, hi, sd);
    }
  }

  /** The number of entries of s equal to v. */
  function Count(s: seq<int>, v: int): (n: nat)
    ensures n == 0 <==> v !in s
  {
    multiset(s)[v]
  }

  /** A 0/1 column splits into its zeros and its ones. */
  lemma {:induction false} CountSplit(s: seq<int>)
    requires forall k :: 0 <= k < |s| ==> s[k] == 0 || s[k] == 1
    ensures Count(s, 0) + Count(s, 1) == |s|
    decreases |s|
  {
    if s != [] {
      var s', x := s[..|s| - 1], s[|s| - 1];
      SplitLast(s);
      CountSplit(s');
    }
  }

  /** The number of entries equal to v grows by one exactly when the appended entry is v. */
  lemma CountSnoc(s: seq<int>, x: int, v: int)
    ensures Count(s + [x], v) == Count(s, v) + (if x == v then 1 else 0)
  {
    assert multiset(s + [x]) == multiset(s) + multiset{x};
  }

  /** One row of the data dict: the entries the eleven columns hold at one index. */
  datatype Row = Row(
    trial: int, aborted: int,
    a1: int, a1Key: Cell<Key>, rt1: Cell<real>,
    s2: int, transCr: Cell<int>,
    a2: int, a2Key: Cell<Key>, rt2: Cell<real>,
    r: Cell<int>)

  /** Every column of d has exactly n entries. */
  predicate Rectangular(d: Data, n: nat) {
    Shape(d, n, n, n, n, n)
  }

  predicate HasRow(d: Data, k: nat) {
    && k < |d.trial| && k < |d.aborted|
    && k < |d.a1| && k < |d.a1Key| && k < |d.rt1|
    && k < |d.s2| && k < |d.transCr|
    && k < |d.a2| && k < |d.a2Key| && k < |d.rt2|
    && k < |d.r|
  }

  function RowAt(d: Data, k: nat): Row
    requires HasRow(d, k)
  {
    Row(d.trial[k], d.aborted[k], d.a1[k], d.a1Key[k], d.rt1[k], d.s2[k], d.transCr[k],
        d.a2[k], d.a2Key[k], d.rt2[k], d.r[k])
  }

  /** One append to every column. */
  function AppendRow(d: Data, w: Row): Data {
    Data(d.trial + [w.trial], d.aborted + [w.aborted],
         d.a1 + [w.a1], d.a1Key + [w.a1Key], d.rt1 + [w.rt1],
         d.s2 + [w.s2], d.transCr + [w.transCr],
         d.a2 + [w.a2], d.a2Key + [w.a2Key], d.rt2 + [w.rt2],
         d.r + [w.r])
  }

  /** Appending a row adds it at index n and leaves the rows before it as they were. */
  lemma AppendRowAt(d: Data, w: Row, n: nat)
    requires Rectangular(d, n)
    ensures Rectangular(AppendRow(d, w), n + 1)
    ensures RowAt(AppendRow(d, w), n) == w
    ensures forall k :: 0 <= k < n ==> RowAt(AppendRow(d, w), k) == RowAt(d, k)
  {
  }

  /** A trial that ran to the end: every cell holds a real observation. */
  predicate CompletedRow(w: Row, ptrans: real) {
    && IsChoice(w.a1) && w.a1Key.Val? && w.rt1.Val?
    && IsState2(w.s2) && w.transCr == Val(TransitionClass(ptrans, w.a1, w.s2))
    && IsChoice(w.a2) && w.a2Key.Val? && w.rt2.Val?
    && (w.r == Val(0) || w.r == Val(1))
  }

  /** An aborted trial: padded from the first stage on, or from the second stage on. */
  predicate AbortedRow(w: Row, ptrans: real) {
    && w.a2 == -1 && w.rt2 == NaN && w.r == NaN
    && (|| (&& w.a1 == -1 && w.a1Key == Marker("ABORTED") && w.rt1 == NaN
            && w.s2 == -1 && w.transCr == Marker("ABORTED") && w.a2Key == Marker("ABORTED"))
        || (&& IsChoice(w.a1) && w.a1Key.Val? && w.rt1.Val?
            && IsState2(w.s2) && w.transCr == Val(TransitionClass(ptrans, w.a1, w.s2))
            && w.a2Key == Marker("NA")))
  }

  /** The row of trial k: numbered k, flagged, and completed or padded to match its flag. */
  predicate RowOk(w: Row, ptrans: real, k: nat) {
    && w.trial == k
    && (|| (w.aborted == 0 && CompletedRow(w, ptrans))
        || (w.aborted == 1 && AbortedRow(w, ptrans)))
  }

  /** The first n rows of d are all well formed. */
  predicate RowsOk(d: Data, ptrans: real, n: nat) {
    Rectangular(d, n) && forall k :: 0 <= k < n ==> RowOk(RowAt(d, k), ptrans, k)
  }

  /** A well-formed row appended at index n keeps all n + 1 rows well formed. */
  lemma AppendRowOk(d: Data, w: Row, ptrans: real, n: nat)
    requires RowsOk(d, ptrans, n) && RowOk(w, ptrans, n)
    ensures RowsOk(AppendRow(d, w), ptrans, n + 1)
  {
    AppendRowAt(d, w, n);
    forall k | 0 <= k < n + 1
      ensures RowOk(RowAt(AppendRow(d, w), k), ptrans, k)
    {
    }
  }

  /** One iteration's supply of draws and responses (the ITI draw is left out). */
  datatype TrialInput = TrialInput(
    lr1: real, press1: Option<Press>, trans: real,
    lr2: real, press2: Option<Press>, reward: real,
    noise: seq<real>)

  /** The participant missed a deadline in this iteration. */
  predicate TimedOut(x: TrialInput) {
    x.press1.None? || x.press2.None?
  }

  /** The aborted column produced by a sequence of iterations. */
  function AbortFlags(xs: seq<TrialInput>): (flags: seq<int>)
    ensures |flags| == |xs|
    ensures forall i :: 0 <= i < |xs| ==> flags[i] == (if TimedOut(xs[i]) then 1 else 0)
    decreases |xs|
  {
    if xs == [] then []
    else AbortFlags(xs[..|xs| - 1]) + [if TimedOut(xs[|xs| - 1]) then 1 else 0]
  }

  /** One more input consumed adds its flag to the aborted column. */
  lemma AbortFlagsStep(a0: seq<int>, inputs: seq<TrialInput>, i: nat)
    requires i < |inputs|
    ensures a0 + AbortFlags(inputs[..i + 1]) == (a0 + AbortFlags(inputs[..i])) + [if TimedOut(inputs[i]) then 1 else 0]
  {
    TakeOneMore(inputs, i);
    TakeSnoc(inputs[..i], inputs[i]);
    AppendAssoc(a0, AbortFlags(inputs[..i]), [if TimedOut(inputs[i]) then 1 else 0]);
  }

  /** The constructor arguments that stay fixed for the block. */
  datatype Params = Params(ptrans: real, lo: real, hi: real, sd: real)

  /** One more clamped step at the end of a reward path. */
  function Extend(path: seq<real>, z: real, p: Params): (path': seq<real>)
    requires path != []
    ensures |path'| == |path| + 1 && path'[..|path|] == path
    ensures InBounds(path, p.lo, p.hi) && p.lo <= p.hi ==> InBounds(path', p.lo, p.hi)
  {
    path + [WalkStep(path[|path| - 1], z, p.lo, p.hi, p.sd)]
  }

  /** Extending a walk by one draw is the walk over one more draw. */
  lemma ExtendWalk(x0: real, zs: seq<real>, z: real, p: Params)
    ensures Extend(Walk(x0, zs, p.lo, p.hi, p.sd), z, p) == Walk(x0, zs + [z], p.lo, p.hi, p.sd)
  {
    TakeSnoc(zs, z);
  }

  predicate PathsReady(paths: seq<seq<real>>) {
    |paths| == 4 && forall o :: 0 <= o < 4 ==> paths[o] != []
  }

  /** _updaterewardpaths on the four paths. */
  function ExtendPaths(paths: seq<seq<real>>, noise: seq<real>, p: Params): (paths': seq<seq<real>>)
    requires PathsReady(paths) && |noise| == 4
    ensures |paths'| == 4
    ensures forall o :: 0 <= o < 4 ==> paths'[o] == Extend(paths[o], noise[o], p)
  {
    [Extend(paths[0], noise[0], p), Extend(paths[1], noise[1], p),
     Extend(paths[2], noise[2], p), Extend(paths[3], noise[3], p)]
  }

  /** Every path holds n entries, all within [lo, hi]. */
  predicate PathsOk(paths: seq<seq<real>>, n: nat, p: Params) {
    |paths| == 4 && forall o :: 0 <= o < 4 ==> |paths[o]| == n && InBounds(paths[o], p.lo, p.hi)
  }

  /** An update keeps the paths in bounds and makes each one entry longer. */
  lemma ExtendPathsOk(paths: seq<seq<real>>, noise: seq<real>, n: nat, p: Params)
    requires PathsOk(paths, n, p) && 0 < n && p.lo <= p.hi && |noise| == 4
    ensures PathsOk(ExtendPaths(paths, noise, p), n + 1, p)
  {
    var paths' := ExtendPaths(paths, noise, p);
    forall o | 0 <= o < 4
      ensures |paths'[o]| == n + 1 && InBounds(paths'[o], p.lo, p.hi)
    {
    }
  }

  /** The data after abort_trial(step=1) at trial t. */
  function PaddedAtStep1(d: Data, t: nat): (d': Data)
    requires t < |d.aborted|
  {
    d.(aborted := d.aborted[t := 1],
       a1 := d.a1 + [-1], a1Key := d.a1Key + [Marker("ABORTED")], rt1 := d.rt1 + [NaN],
       s2 := d.s2 + [-1], transCr := d.transCr + [Marker("ABORTED")],
       a2 := d.a2 + [-1], a2Key := d.a2Key + [Marker("ABORTED")], rt2 := d.rt2 + [NaN],
       r := d.r + [NaN])
  }

  /** The data after abort_trial(step=2) at trial t. */
  function PaddedAtStep2(d: Data, t: nat): (d': Data)
    requires t < |d.aborted|
  {
    d.(aborted := d.aborted[t := 1],
       a2 := d.a2 + [-1], a2Key := d.a2Key + [Marker("NA")], rt2 := d.rt2 + [NaN],
       r := d.r + [NaN])
  }

  /** run's two appends before step1. */
  function Begin(d: Data, t: nat): Data {
    d.(trial := d.trial + [t], aborted := d.aborted + [0])
  }

  /** step1's appends after a key press. */
  function Answer1(d: Data, press: Press, a1: int): Data {
    d.(a1 := d.a1 + [a1], a1Key := d.a1Key + [Val(press.key)], rt1 := d.rt1 + [Val(press.rt)])
  }

  /** state_transition's appends. */
  function Move(d: Data, s2: int, cr: int): Data {
    d.(s2 := d.s2 + [s2], transCr := d.transCr + [Val(cr)])
  }

  /** step2's appends after a key press. */
  function Answer2(d: Data, press: Press, a2: int): Data {
    d.(a2 := d.a2 + [a2], a2Key := d.a2Key + [Val(press.key)], rt2 := d.rt2 + [Val(press.rt)])
  }

  /** sample_reward's append. */
  function Reward(d: Data, r: int): Data {
    d.(r := d.r + [Val(r)])
  }

  /** The option an answered stage selects: the one step1/step2 placed on the pressed key's side. */
  function Chosen(lr: real, press: Press): (a: int)
    ensures IsChoice(a)
    ensures a == 1 <==> (lr < 0.5 <==> press.key == F)
  {
    Multinomial1(0.5, lr)[Side(press.key)]
  }

  /** The row of a trial aborted at step 1. */
  function Abort1Row(t: nat): (w: Row)
    ensures w.aborted == 1 && forall ptrans :: RowOk(w, ptrans, t)
  {
    Row(t, 1, -1, Marker("ABORTED"), NaN, -1, Marker("ABORTED"), -1, Marker("ABORTED"), NaN, NaN)
  }

  /** The row of a trial aborted at step 2 after the first-stage press p1. */
  function Abort2Row(t: nat, p1: Press, a1: int, s2: int, ptrans: real): (w: Row)
    requires IsChoice(a1) && IsState2(s2)
    ensures w.aborted == 1 && RowOk(w, ptrans, t)
  {
    Row(t, 1, a1, Val(p1.key), Val(p1.rt), s2, Val(TransitionClass(ptrans, a1, s2)), -1, Marker("NA"), NaN, NaN)
  }

  /** The row of a completed trial. */
  function DoneRow(t: nat, p1: Press, a1: int, s2: int, p2: Press, a2: int, r: int, ptrans: real): (w: Row)
    requires IsChoice(a1) && IsState2(s2) && IsChoice(a2) && (r == 0 || r == 1)
    ensures w.aborted == 0 && RowOk(w, ptrans, t)
  {
    Row(t, 0, a1, Val(p1.key), Val(p1.rt), s2, Val(TransitionClass(ptrans, a1, s2)),
        a2, Val(p2.key), Val(p2.rt), Val(r))
  }

  /**
    The row that iteration t of run writes: padded from the stage whose deadline
    passed, or complete with the reward drawn from entry t of the chosen option's path.
   */
  function IterationRow(t: nat, paths: seq<seq<real>>, x: TrialInput, p: Params): (w: Row)
    requires |paths| == 4 && forall o :: 0 <= o < 4 ==> t < |paths[o]|
    ensures RowOk(w, p.ptrans, t)
    ensures w.aborted == (if TimedOut(x) then 1 else 0)
  {
    if x.press1.None? then Abort1Row(t)
    else
      var a1 := Chosen(x.lr1, x.press1.value);
      var s2 := Transition(p.ptrans, a1, x.trans);
      if x.press2.None? then Abort2Row(t, x.press1.value, a1, s2, p.ptrans)
      else
        var a2 := Chosen(x.lr2, x.press2.value);
        DoneRow(t, x.press1.value, a1, s2, x.press2.value, a2,
                Bernoulli(paths[OptionIndex(s2, a2)][t], x.reward), p.ptrans)
  }

  /** Three lemmas: the staged appends of each kind of iteration add exactly IterationRow to every column. */
  lemma Abort1Data(d: Data, t: nat, paths: seq<seq<real>>, x: TrialInput, p: Params)
    requires Rectangular(d, t) && x.press1.None?
    requires |paths| == 4 && forall o :: 0 <= o < 4 ==> t < |paths[o]|
    ensures PaddedAtStep1(Begin(d, t), t) == AppendRow(d, IterationRow(t, paths, x, p))
  {
    SetLast(d.aborted, 0, 1);
  }

  lemma Abort2Data(d: Data, t: nat, paths: seq<seq<real>>, x: TrialInput, p: Params)
    requires Rectangular(d, t) && x.press1.Some? && x.press2.None?
    requires |paths| == 4 && forall o :: 0 <= o < 4 ==> t < |paths[o]|
    ensures var a1 := Chosen(x.lr1, x.press1.value);
      var s2 := Transition(p.ptrans, a1, x.trans);
      PaddedAtStep2(Move(Answer1(Begin(d, t), x.press1.value, a1), s2, TransitionClass(p.ptrans, a1, s2)), t)
        == AppendRow(d, IterationRow(t, paths, x, p))
  {
    SetLast(d.aborted, 0, 1);
  }

  lemma DoneData(d: Data, t: nat, paths: seq<seq<real>>, x: TrialInput, p: Params)
    requires Rectangular(d, t) && !TimedOut(x)
    requires |paths| == 4 && forall o :: 0 <= o < 4 ==> t < |paths[o]|
    ensures var a1 := Chosen(x.lr1, x.press1.value);
      var s2 := Transition(p.ptrans, a1, x.trans);
      var a2 := Chosen(x.lr2, x.press2.value);
      Reward(Answer2(Move(Answer1(Begin(d, t), x.press1.value, a1), s2, TransitionClass(p.ptrans, a1, s2)),
                     x.press2.value, a2),
             Bernoulli(paths[OptionIndex(s2, a2)][t], x.reward))
        == AppendRow(d, IterationRow(t, paths, x, p))
  {
  }

  /**
    What holds between two iterations of run for a block created with `requested`
    trials: every reward path has one entry per trial and stays within its bounds,
    every started trial has a completed or an aborted row, both lr sequences have
    one entry per started trial, and the block has grown by exactly its aborted trials.
   */
  predicate BlockOk(t: nat, ntrials: nat, paths: seq<seq<real>>, d: Data,
                    lr1s: seq<seq<int>>, lr2s: seq<seq<int>>, requested: nat, p: Params) {
    && p.lo <= p.hi
    && 0 < ntrials && t <= ntrials
    && PathsOk(paths, ntrials, p)
    && RowsOk(d, p.ptrans, t)
    && |lr1s| == t && |lr2s| == t
    && ntrials == requested + Count(d.aborted, 1)
  }

  /**
    Every iteration of run keeps the block invariant: the block after the iteration
    (t', ntrials', paths', d', lr1s', lr2s') is the one before it with one more row,
    one more lr entry on each sequence, and, after a missed deadline, one more trial
    and one more entry on every path.
   */
  lemma IterationOk(t: nat, ntrials: nat, paths: seq<seq<real>>, d: Data,
                    lr1s: seq<seq<int>>, lr2s: seq<seq<int>>, requested: nat, p: Params, x: TrialInput,
                    t': nat, ntrials': nat, paths': seq<seq<real>>, d': Data,
                    lr1s': seq<seq<int>>, lr2s': seq<seq<int>>)
    requires BlockOk(t, ntrials, paths, d, lr1s, lr2s, requested, p) && t < ntrials && |x.noise| == 4
    requires t' == t + 1 && ntrials' == ntrials + (if TimedOut(x) then 1 else 0)
    requires paths' == if TimedOut(x) then ExtendPaths(paths, x.noise, p) else paths
    requires d' == AppendRow(d, IterationRow(t, paths, x, p))
    requires |lr1s'| == |lr1s| + 1 && |lr2s'| == |lr2s| + 1
    ensures BlockOk(t', ntrials', paths', d', lr1s', lr2s', requested, p)
  {
    var w := IterationRow(t, paths, x, p);
    AppendRowOk(d, w, p.ptrans, t);
    CountSnoc(d.aborted, w.aborted, 1);
    if TimedOut(x) {
      ExtendPathsOk(paths, x.noise, ntrials, p);
    }
  }

  /** Once t reaches ntrials, the block holds exactly the requested number of completed trials. */
  lemma FinishedBlockHasRequestedTrials(t: nat, paths: seq<seq<real>>, d: Data,
                                        lr1s: seq<seq<int>>, lr2s: seq<seq<int>>, requested: nat, p: Params)
    requires BlockOk(t, t, paths, d, lr1s, lr2s, requested, p)
    ensures Count(d.aborted, 0) == requested
  {
    forall k | 0 <= k < |d.aborted|
      ensures d.aborted[k] == 0 || d.aborted[k] == 1
    {
      assert RowOk(RowAt(d, k), p.ptrans, k);
    }
    CountSplit(d.aborted);
  }

  /** The row-wise view of the first n entries of every column. */
  function Rows(d: Data, n: nat): (rows: seq<Row>)
    requires Rectangular(d, n)
    ensures |rows| == n
    ensures forall k :: 0 <= k < n ==> rows[k] == RowAt(d, k)
  {
    seq(n, k requires 0 <= k < n => RowAt(d, k))
  }

  /** df.ix[df.aborted == 0, :]: the rows of the trials that were not aborted, in order. */
  function Included(rows: seq<Row>): (inc: seq<Row>)
    ensures |inc| <= |rows|
    ensures forall k :: 0 <= k < |inc| ==> inc[k].aborted == 0 && inc[k] in rows
    decreases |rows|
  {
    if rows == [] then []
    else
      var rest := Included(rows[..|rows| - 1]);
      if rows[|rows| - 1].aborted == 0 then rest + [rows[|rows| - 1]] else rest
  }

  /** The filter keeps trial order: filtering a table split in two is filtering each part, in turn. */
  lemma {:induction false} IncludedAppend(a: seq<Row>, b: seq<Row>)
    ensures Included(a + b) == Included(a) + Included(b)
    decreases |b|
  {
    if b == [] {
      assert a + b == a;
    } else {
      var init := b[..|b| - 1];
      assert (a + b)[..|a + b| - 1] == a + init;
      IncludedAppend(a, init);
    }
  }

  /** A single row is kept exactly when its flag is 0. */
  lemma IncludedSingle(r: Row)
    ensures Included([r]) == if r.aborted == 0 then [r] else []
  {
    assert [r][..0] == [];
  }

  /**
    Consecutive included trials are consecutive completed trials: when row i is
    kept and row j is the next row flagged 0, the two sit side by side in the
    included table.
   */
  lemma IncludedConsecutive(rows: seq<Row>, i: nat, j: nat)
    requires i < j < |rows| && rows[i].aborted == 0 && rows[j].aborted == 0
    requires forall m :: i < m < j ==> rows[m].aborted != 0
    ensures var inc := Included(rows); var k := |Included(rows[..i])|;
      k + 1 < |inc| && inc[k] == rows[i] && inc[k + 1] == rows[j]
  {
    var a, gap, b := rows[..i], rows[i + 1..j], rows[j + 1..];
    assert rows == a + ([rows[i]] + (gap + ([rows[j]] + b)));
    IncludedAppend(a, [rows[i]] + (gap + ([rows[j]] + b)));
    IncludedAppend([rows[i]], gap + ([rows[j]] + b));
    IncludedAppend(gap, [rows[j]] + b);
    IncludedAppend([rows[j]], b);
    IncludedSingle(rows[i]);
    IncludedSingle(rows[j]);
    IncludedNone(gap);
  }

  /** Rows that are all flagged aborted contribute nothing. */
  lemma {:induction false} IncludedNone(rows: seq<Row>)
    requires forall m :: 0 <= m < |rows| ==> rows[m].aborted != 0
    ensures Included(rows) == []
    decreases |rows|
  {
    if rows != [] {
      IncludedNone(rows[..|rows| - 1]);
    }
  }

  /** The aborted column of a run of rows. */
  function AbortedColumn(rows: seq<Row>): (col: seq<int>)
    ensures |col| == |rows|
    ensures forall k :: 0 <= k < |rows| ==> col[k] == rows[k].aborted
  {
    seq(|rows|, k requires 0 <= k < |rows| => rows[k].aborted)
  }

  /** The included rows are as many as the zeros of the aborted column. */
  lemma {:induction false} IncludedSize(rows: seq<Row>)
    ensures |Included(rows)| == Count(AbortedColumn(rows), 0)
    decreases |rows|
  {
    if rows != [] {
      var rest := rows[..|rows| - 1];
      IncludedSize(rest);
      assert AbortedColumn(rows) == AbortedColumn(rest) + [rows[|rows| - 1].aborted];
      CountSnoc(AbortedColumn(rest), rows[|rows| - 1].aborted, 0);
    }
  }

  /** Every row whose flag is 0 is kept. */
  lemma {:induction false} IncludedKeeps(rows: seq<Row>, k: nat)
    requires k < |rows| && rows[k].aborted == 0
    ensures rows[k] in Included(rows)
    decreases |rows|
  {
    if k < |rows| - 1 {
      IncludedKeeps(rows[..|rows| - 1], k);
    }
  }

  /** One row of the theory-free table built by savedata. */
  datatype StayRow = StayRow(stay: int, lastTrans: Cell<int>, lastRewarded: Cell<int>, rt2: Cell<real>)

  /** The table row of a pair of consecutive included trials. */
  function Pair(last: Row, curr: Row): (s: StayRow)
    ensures s.stay == 0 || s.stay == 1
    ensures s.stay == 1 <==> last.a1 == curr.a1
    ensures s.lastTrans == last.transCr && s.lastRewarded == last.r && s.rt2 == curr.rt2
  {
    StayRow(if last.a1 == curr.a1 then 1 else 0, last.transCr, last.r, curr.rt2)
  }

  /**
    The theory-free table: one row per pair of consecutive included trials, as
    a1[:-1] and a1[1:] line up position by position.
   */
  function StayTable(inc: seq<Row>): (tf: seq<StayRow>)
    ensures |tf| == if inc == [] then 0 else |inc| - 1
    ensures forall k :: 0 <= k < |tf| ==> tf[k] == Pair(inc[k], inc[k + 1])
  {
    if |inc| <= 1 then []
    else seq(|inc| - 1, k requires 0 <= k < |inc| - 1 => Pair(inc[k], inc[k + 1]))
  }

  /** savedata's table over the trials run so far. */
  function TheoryFree(d: Data, t: nat): (tf: seq<StayRow>)
    requires Rectangular(d, t)
    ensures |tf| == if Included(Rows(d, t)) == [] then 0 else |Included(Rows(d, t))| - 1
  {
    StayTable(Included(Rows(d, t)))
  }

  /**
    The stay table pairs each completed trial with the next completed one: when
    trials i < j are not aborted and every trial between them was, some row of
    the table is Pair(trial i, trial j).
   */
  lemma StayPairsConsecutiveTrials(d: Data, t: nat, i: nat, j: nat)
    requires Rectangular(d, t) && i < j < t
    requires d.aborted[i] == 0 && d.aborted[j] == 0
    requires forall m :: i < m < j ==> d.aborted[m] != 0
    ensures exists k :: 0 <= k < |TheoryFree(d, t)| && TheoryFree(d, t)[k] == Pair(RowAt(d, i), RowAt(d, j))
  {
    var rows := Rows(d, t);
    IncludedConsecutive(rows, i, j);
    var k := |Included(rows[..i])|;
    assert TheoryFree(d, t)[k] == Pair(RowAt(d, i), RowAt(d, j));
  }

  /** After a finished block the table has one row fewer than the trials that were requested. */
  lemma FinishedStayTableSize(t: nat, paths: seq<seq<real>>, d: Data,
                              lr1s: seq<seq<int>>, lr2s: seq<seq<int>>, requested: nat, p: Params)
    requires BlockOk(t, t, paths, d, lr1s, lr2s, requested, p) && 0 < requested
    ensures |TheoryFree(d, t)| == requested - 1
  {
    FinishedBlockHasRequestedTrials(t, paths, d, lr1s, lr2s, requested, p);
    var rows := Rows(d, t);
    IncludedSize(rows);
    assert AbortedColumn(rows) == d.aborted;
  }

  /** In the stay table every included trial is a completed one, so stay compares two real first-stage choices. */
  lemma StayComparesCompletedChoices(d: Data, t: nat, ptrans: real, k: nat)
    requires RowsOk(d, ptrans, t) && k < |TheoryFree(d, t)|
    ensures IsChoice(Included(Rows(d, t))[k].a1) && IsChoice(Included(Rows(d, t))[k + 1].a1)
  {
    var rows := Rows(d, t);
    var inc := Included(rows);
    assert inc[k] in rows && inc[k + 1] in rows;
    var i :| 0 <= i < t && rows[i] == inc[k];
    var j :| 0 <= j < t && rows[j] == inc[k + 1];
    assert RowOk(RowAt(d, i), ptrans, i) && RowOk(RowAt(d, j), ptrans, j);
  }

  class Trials {
    const ptrans: real
    const prewardLow: real
    const prewardHigh: real
    const prewardSd: real
    /** The ntrials the block was created with. */
    ghost const requested: nat

    var ntrials: nat
    var t: nat
    /** The reward paths of options (1,0), (1,1), (2,0), (2,1), at OptionIndex(s2, a2). */
    var preward: seq<seq<real>>
    var step1Lr: seq<seq<int>>
    var step2Lr: seq<seq<int>>
    var trialAborted: bool
    var a1: int
    var a2: int
    var s2: int
    var data: Data

    function Config(): (p: Params)
      ensures p.ptrans == ptrans && p.lo == prewardLow && p.hi == prewardHigh && p.sd == prewardSd
    {
      Params(ptrans, prewardLow, prewardHigh, prewardSd)
    }

    /** The invariant between two iterations of run. */
    ghost predicate Valid()
      reads this
    {
      BlockOk(t, ntrials, preward, data, step1Lr, step2Lr, requested, Config())
    }

    constructor (ntrials: nat, ptrans: real, prewardLow: real, prewardHigh: real, prewardSd: real,
                 init: seq<real>, noise: seq<seq<real>>)
      requires ntrials > 0 && prewardLow <= prewardHigh
      requires |init| == 4 && UnitDraws(init)
      requires |noise| == 4 && forall o :: 0 <= o < 4 ==> |noise[o]| == ntrials - 1
      ensures Valid()
      ensures this.ntrials == ntrials && requested == ntrials && t == 0
      ensures this.ptrans == ptrans && this.prewardLow == prewardLow
      ensures this.prewardHigh == prewardHigh && this.prewardSd == prewardSd
      ensures forall o :: 0 <= o < 4 ==>
        preward[o] == Walk(Uniform(prewardLow, prewardHigh, init[o]), noise[o], prewardLow, prewardHigh, prewardSd)
      ensures !trialAborted && a1 == 999 && a2 == 999 && s2 == 999
      ensures data == EmptyData && step1Lr == [] && step2Lr == []
    {
      this.ptrans := ptrans;
      this.prewardLow := prewardLow;
      this.prewardHigh := prewardHigh;
      this.prewardSd := prewardSd;
      this.requested := ntrials;
      this.ntrials := ntrials;
      preward := [[], [], [], []];
      t := 0;
      step1Lr, step2Lr := [], [];
      trialAborted := false;
      a1, a2, s2 := 999, 999, 999;
      data := EmptyData;
      new;
      InitRewardPaths(init, noise);
      forall o | 0 <= o < 4
        ensures InBounds(preward[o], prewardLow, prewardHigh)
      {
        WalkInBounds(Uniform(prewardLow, prewardHigh, init[o]), noise[o], prewardLow, prewardHigh, prewardSd);
      }
    }

    /** _initrewardpaths: per option one uniform draw, then ntrials - 1 clamped steps. */
    method InitRewardPaths(init: seq<real>, noise: seq<seq<real>>)
      requires ntrials > 0 && preward == [[], [], [], []]
      requires |init| == 4 && UnitDraws(init)
      requires |noise| == 4 && forall o :: 0 <= o < 4 ==> |noise[o]| == ntrials - 1
      modifies this`preward
      ensures |preward| == 4
      ensures forall o :: 0 <= o < 4 ==>
        preward[o] == Walk(Uniform(prewardLow, prewardHigh, init[o]), noise[o], prewardLow, prewardHigh, prewardSd)
    {
      for i := 1 to 3
        invariant |preward| == 4
        invariant forall o :: 0 <= o < 2 * (i - 1) ==>
          preward[o] == Walk(Uniform(prewardLow, prewardHigh, init[o]), noise[o], prewardLow, prewardHigh, prewardSd)
        invariant forall o :: 2 * (i - 1) <= o < 4 ==> preward[o] == []
      {
        for j := 0 to 2
          invariant |preward| == 4
          invariant forall o :: 0 <= o < 2 * (i - 1) + j ==>
            preward[o] == Walk(Uniform(prewardLow, prewardHigh, init[o]), noise[o], prewardLow, prewardHigh, prewardSd)
          invariant forall o :: 2 * (i - 1) + j <= o < 4 ==> preward[o] == []
        {
          var o := 2 * (i - 1) + j;
          var x0 := Uniform(prewardLow, prewardHigh, init[o]);
          preward := preward[o := [x0]];
          ghost var others := preward;
          assert noise[o][..0] == [];
          for s := 0 to ntrials - 1
            invariant |preward| == 4
            invariant preward[o] == Walk(x0, noise[o][..s], prewardLow, prewardHigh, prewardSd)
            invariant forall o' :: 0 <= o' < 4 && o' != o ==> preward[o'] == others[o']
          {
            ExtendWalk(x0, noise[o][..s], noise[o][s], Config());
            preward := preward[o := Extend(preward[o], noise[o][s], Config())];
            TakeOneMore(noise[o], s);
          }
          TakeAll(noise[o]);
        }
      }
    }

    /** _updaterewardpaths: one more clamped step on each of the four paths. */
    method UpdateRewardPaths(noise: seq<real>)
      requires PathsReady(preward) && |noise| == 4
      modifies this`preward
      ensures preward == ExtendPaths(old(preward), noise, Config())
    {
      for i := 1 to 3
        invariant |preward| == 4
        invariant forall o :: 0 <= o < 2 * (i - 1) ==> preward[o] == Extend(old(preward[o]), noise[o], Config())
        invariant forall o :: 2 * (i - 1) <= o < 4 ==> preward[o] == old(preward[o])
      {
        for j := 0 to 2
          invariant |preward| == 4
          invariant forall o :: 0 <= o < 2 * (i - 1) + j ==> preward[o] == Extend(old(preward[o]), noise[o], Config())
          invariant forall o :: 2 * (i - 1) + j <= o < 4 ==> preward[o] == old(preward[o])
        {
          var o := 2 * (i - 1) + j;
          preward := preward[o := Extend(preward[o], noise[o], Config())];
        }
      }
    }

    /** abort_trial: mark the trial aborted, advance t, add a trial and a path entry, pad the columns. */
    method AbortTrial(step: int, noise: seq<real>)
      requires step == 1 || step == 2
      requires t < |data.aborted| && PathsReady(preward) && |noise| == 4
      modifies this`trialAborted, this`data, this`t, this`ntrials, this`preward, this`step2Lr
      ensures trialAborted && t == old(t) + 1 && ntrials == old(ntrials) + 1
      ensures preward == ExtendPaths(old(preward), noise, Config())
      ensures step2Lr == if step == 1 then old(step2Lr) + [[-1, -1]] else old(step2Lr)
      ensures data == if step == 1 then PaddedAtStep1(old(data), old(t)) else PaddedAtStep2(old(data), old(t))
    {
      trialAborted := true;
      data := data.(aborted := data.aborted[t := 1]);
      t := t + 1;
      ntrials := ntrials + 1;
      UpdateRewardPaths(noise);
      if step == 1 {
        step2Lr := step2Lr + [[-1, -1]];
        data := data.(a1 := data.a1 + [-1], a1Key := data.a1Key + [Marker("ABORTED")], rt1 := data.rt1 + [NaN],
                      s2 := data.s2 + [-1], transCr := data.transCr + [Marker("ABORTED")],
                      a2 := data.a2 + [-1], a2Key := data.a2Key + [Marker("ABORTED")], rt2 := data.rt2 + [NaN],
                      r := data.r + [NaN]);
      } else {
        data := data.(a2 := data.a2 + [-1], a2Key := data.a2Key + [Marker("NA")], rt2 := data.rt2 + [NaN],
                      r := data.r + [NaN]);
      }
    }

    /**
      step1: draw the left/right placement, wait for 'f' or 'j'. The key selects the
      option placed on its side; without a key the trial is aborted at step 1.
     */
    method Step1(lr: real, press: Option<Press>, noise: seq<real>)
      requires t < |data.aborted| && |step1Lr| == t && PathsReady(preward) && |noise| == 4
      modifies this`step1Lr, this`trialAborted, this`a1, this`data, this`t, this`ntrials, this`preward, this`step2Lr
      ensures step1Lr == old(step1Lr) + [Multinomial1(0.5, lr)]
      ensures trialAborted <==> press.None?
      ensures press.None? ==>
        && a1 == old(a1) && t == old(t) + 1 && ntrials == old(ntrials) + 1
        && preward == ExtendPaths(old(preward), noise, Config())
        && step2Lr == old(step2Lr) + [[-1, -1]] && data == PaddedAtStep1(old(data), old(t))
      ensures press.Some? ==>
        && a1 == Chosen(lr, press.value) && t == old(t) && ntrials == old(ntrials)
        && preward == old(preward) && step2Lr == old(step2Lr)
        && data == Answer1(old(data), press.value, a1)
    {
      step1Lr := step1Lr + [Multinomial1(0.5, lr)];
      if press.None? {
        AbortTrial(1, noise);
      } else {
        trialAborted := false;
        a1 := step1Lr[t][Side(press.value.key)];
        data := data.(a1 := data.a1 + [a1], a1Key := data.a1Key + [Val(press.value.key)],
                      rt1 := data.rt1 + [Val(press.value.rt)]);
      }
    }

    /** state_transition: draw the second-stage state from the chosen row and classify it. */
    method StateTransition(u: real)
      requires IsChoice(a1)
      modifies this`s2, this`data
      ensures s2 == Transition(ptrans, a1, u)
      ensures data == Move(old(data), s2, TransitionClass(ptrans, a1, s2))
    {
      var pTrans := TransitionRow(ptrans, a1);
      s2 := ArgmaxInt(Multinomial1(pTrans[0], u)) + 1;
      data := data.(s2 := data.s2 + [s2]);
      if s2 - 1 == ArgmaxReal(pTrans) {
        data := data.(transCr := data.transCr + [Val(1)]);
      } else {
        data := data.(transCr := data.transCr + [Val(0)]);
      }
    }

    /** step2: as step1, within state s2; without a key the trial is aborted at step 2. */
    method Step2(lr: real, press: Option<Press>, noise: seq<real>)
      requires t < |data.aborted| && |step2Lr| == t && PathsReady(preward) && |noise| == 4
      modifies this`step2Lr, this`trialAborted, this`a2, this`data, this`t, this`ntrials, this`preward
      ensures trialAborted <==> press.None?
      ensures press.None? ==>
        && a2 == old(a2) && t == old(t) + 1 && ntrials == old(ntrials) + 1
        && preward == ExtendPaths(old(preward), noise, Config())
        && step2Lr == old(step2Lr) + [Multinomial1(0.5, lr)] && data == PaddedAtStep2(old(data), old(t))
      ensures press.Some? ==>
        && a2 == Chosen(lr, press.value) && t == old(t) && ntrials == old(ntrials)
        && preward == old(preward) && step2Lr == old(step2Lr) + [Multinomial1(0.5, lr)]
        && data == Answer2(old(data), press.value, a2)
    {
      step2Lr := step2Lr + [Multinomial1(0.5, lr)];
      if press.None? {
        AbortTrial(2, noise);
      } else {
        trialAborted := false;
        a2 := step2Lr[t][Side(press.value.key)];
        data := data.(a2 := data.a2 + [a2], a2Key := data.a2Key + [Val(press.value.key)],
                      rt2 := data.rt2 + [Val(press.value.rt)]);
      }
    }

    /** sample_reward: a Bernoulli draw on entry t of the chosen option's path. */
    method SampleReward(u: real)
      requires IsState2(s2) && IsChoice(a2)
      requires |preward| == 4 && t < |preward[OptionIndex(s2, a2)]|
      modifies this`data
      ensures data == Reward(old(data), Bernoulli(preward[OptionIndex(s2, a2)][t], u))
    {
      var pReward := preward[OptionIndex(s2, a2)][t];
      var rewarded := Bernoulli(pReward, u);
      data := data.(r := data.r + [Val(rewarded)]);
    }

    /**
      The body of run's loop: one iteration, aborted or completed. The source tests
      trial_aborted twice in a row; the second test can only pass when the first did,
      so it is taken inside SecondStage.
     */
    method Iteration(x: TrialInput)
      requires Rectangular(data, t) && |step1Lr| == t && |step2Lr| == t && |x.noise| == 4
      requires |preward| == 4 && forall o :: 0 <= o < 4 ==> t < |preward[o]|
      modifies this`step1Lr, this`step2Lr, this`trialAborted, this`a1, this`a2, this`s2,
               this`data, this`t, this`ntrials, this`preward
      ensures t == old(t) + 1 && ntrials == old(ntrials) + (if TimedOut(x) then 1 else 0)
      ensures trialAborted <==> TimedOut(x)
      ensures preward == if TimedOut(x) then ExtendPaths(old(preward), x.noise, Config()) else old(preward)
      ensures data == AppendRow(old(data), IterationRow(old(t), old(preward), x, Config()))
      ensures step1Lr == old(step1Lr) + [Multinomial1(0.5, x.lr1)]
      ensures step2Lr == old(step2Lr) + [if x.press1.None? then [-1, -1] else Multinomial1(0.5, x.lr2)]
    {
      ghost var d0, t0, paths0 := data, t, preward;
      data := data.(trial := data.trial + [t], aborted := data.aborted + [0]);
      Step1(x.lr1, x.press1, x.noise);
      if !trialAborted {
        SecondStage(x);
      }
      assert data == AppendRow(d0, IterationRow(t0, paths0, x, Config())) by {
        if x.press1.None? {
          Abort1Data(d0, t0, paths0, x, Config());
        } else if x.press2.None? {
          Abort2Data(d0, t0, paths0, x, Config());
        } else {
          DoneData(d0, t0, paths0, x, Config());
        }
      }
    }

    /** state_transition and step2, then sample_reward and t += 1 unless step 2 was aborted. */
    method SecondStage(x: TrialInput)
      requires IsChoice(a1) && t < |data.aborted| && |step2Lr| == t && |x.noise| == 4
      requires |preward| == 4 && forall o :: 0 <= o < 4 ==> t < |preward[o]|
      modifies this`step2Lr, this`trialAborted, this`a2, this`s2, this`data, this`t, this`ntrials, this`preward
      ensures s2 == Transition(ptrans, a1, x.trans)
      ensures trialAborted <==> x.press2.None?
      ensures step2Lr == old(step2Lr) + [Multinomial1(0.5, x.lr2)]
      ensures t == old(t) + 1 && ntrials == old(ntrials) + (if x.press2.None? then 1 else 0)
      ensures x.press2.None? ==>
        && a2 == old(a2) && preward == ExtendPaths(old(preward), x.noise, Config())
        && data == PaddedAtStep2(Move(old(data), s2, TransitionClass(ptrans, a1, s2)), old(t))
      ensures x.press2.Some? ==>
        && a2 == Chosen(x.lr2, x.press2.value) && preward == old(preward)
        && data == Reward(Answer2(Move(old(data), s2, TransitionClass(ptrans, a1, s2)), x.press2.value, a2),
                          Bernoulli(preward[OptionIndex(s2, a2)][old(t)], x.reward))
    {
      StateTransition(x.trans);
      Step2(x.lr2, x.press2, x.noise);
      if !trialAborted {
        SampleReward(x.reward);
        t := t + 1;
      }
    }

    /**
      run: iterate until t reaches ntrials. Each iteration consumes one input; the
      loop also stops when the inputs run out (the participant is then still at work).
     */
    method Run(inputs: seq<TrialInput>) returns (consumed: nat)
      requires Valid()
      requires forall i :: 0 <= i < |inputs| ==> |inputs[i].noise| == 4
      modifies this`step1Lr, this`step2Lr, this`trialAborted, this`a1, this`a2, this`s2,
               this`data, this`t, this`ntrials, this`preward
      ensures Valid()
      ensures consumed <= |inputs| && t == old(t) + consumed
      ensures t < ntrials ==> consumed == |inputs|
      ensures data.aborted == old(data.aborted) + AbortFlags(inputs[..consumed])
      ensures t == ntrials ==> Count(data.aborted, 0) == requested
    {
      consumed := 0;
      while t < ntrials && consumed < |inputs|
        invariant Valid()
        invariant consumed <= |inputs| && t == old(t) + consumed
        invariant data.aborted == old(data.aborted) + AbortFlags(inputs[..consumed])
        decreases |inputs| - consumed
      {
        ghost var x := inputs[consumed];
        ghost var t0, n0, paths0, d0, lr1s, lr2s := t, ntrials, preward, data, step1Lr, step2Lr;
        Iteration(inputs[consumed]);
        IterationOk(t0, n0, paths0, d0, lr1s, lr2s, requested, Config(), x,
                    t, ntrials, preward, data, step1Lr, step2Lr);
        AbortFlagsStep(old(data.aborted), inputs, consumed);
        consumed := consumed + 1;
      }
      if t == ntrials {
        FinishedBlockHasRequestedTrials(t, preward, data, step1Lr, step2Lr, requested, Config());
      }
    }
  }
}
