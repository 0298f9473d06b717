/**
  The scoring of the operation-span task, psychopy/opspan/opspan.py: the
  equation check, the response buffer of the letter-recall screen, the letter
  answer built during presentation, and the counting loops of the character
  practice, the equation practice, the full practice and the full task.

  The equation table and the consonant list are inputs (the script loads them
  from resource files). The consonants are one character each. Every shuffle,
  equation draw, key press and reaction time is an input as well.
 */
module OpSpan {
  import opened Input
  import opened Draws
  import opened Seqs

  const SpanLow: nat := 3
  const SpanHigh: nat := 7
  const NMathPractice: nat := 15
  const NSpanIterations: nat := 3

  /** The full practice: three rounds of two equation-letter pairs. */
  const NFullPractice: nat := 3
  const FullPracticeSpan: nat := 2

  /** The five span lengths times three iterations: the rows of the data matrix. */
  const NRows: nat := 15

  /** The number of columns of the data matrix. */
  const NColumns: nat := 8

  /** np.linspace(low, high, high - low + 1): the integers low..high, once each, rising. */
  function SpanSeq(low: nat, high: nat): (spans: seq<int>)
    requires low <= high
    ensures |spans| == high - low + 1
    ensures spans[0] == low && spans[|spans| - 1] == high
    ensures forall k :: 0 < k < |spans| ==> spans[k] == spans[k - 1] + 1
    ensures forall k :: 0 <= k < |spans| ==> low <= spans[k] <= high
  {
    seq(high - low + 1, k => low + k)
  }

  // ---------------------------------------------------------------------------
  // Equations
  // ---------------------------------------------------------------------------

  /** A row of the equation table: the text shown and the answer column, "y" or "n". */
  datatype Equation = Equation(text: string, answer: string)

  /** check_equation_answer: 'j' is the key for a correct equation, 'f' for an incorrect one. */
  function CheckEquationAnswer(keyin: string, answer: string): (score: int)
    ensures score == 0 || score == 1
    ensures score == 1 <==> (keyin == "j" && answer == "y") || (keyin == "f" && answer == "n")
  {
    if keyin == "j" && answer == "y" then 1
    else if keyin == "f" && answer == "n" then 1
    else 0
  }

  /**
    On an answer of "y" or "n" exactly one of the two response keys scores;
    on any other answer neither does.
   */
  lemma OneKeyScores(answer: string)
    ensures answer == "y" || answer == "n" ==>
      CheckEquationAnswer(KeyName(F), answer) + CheckEquationAnswer(KeyName(J), answer) == 1
    ensures answer != "y" && answer != "n" ==>
      CheckEquationAnswer(KeyName(F), answer) == 0 && CheckEquationAnswer(KeyName(J), answer) == 0
  {
  }

  /** The row drawequation picks as written: rnd.randint(n - 1), which numpy draws from 0..n-2. */
  function EquationIndexAsWritten(n: nat, u: real): (i: nat)
    requires 1 < n && UnitDraw(u)
    ensures i < n - 1
  {
    RandInt(n - 1, u)
  }

  /** As written, no draw ever picks the last row of the table. */
  lemma LastEquationNeverDrawn(n: nat)
    requires 1 < n
    ensures forall u :: UnitDraw(u) ==> EquationIndexAsWritten(n, u) != n - 1
  {
  }

  /** The row drawequation is meant to pick: rnd.randint(n), any row of the table. */
  function EquationIndex(n: nat, u: real): (i: nat)
    requires 0 < n && UnitDraw(u)
    ensures i < n
  {
    RandInt(n, u)
  }

  /** Every row of the table, the last one included, is picked by some draw. */
  lemma EveryEquationDrawable(n: nat, i: nat)
    requires i < n
    ensures UnitDraw(i as real / n as real)
    ensures EquationIndex(n, i as real / n as real) == i
  {
    var u := i as real / n as real;
    assert u * n as real == i as real;
  }

  /** One equation shown: the draw that picks its row, and the key pressed (None when maxWait ran out). */
  datatype Answer = Answer(u: real, press: Option<Press>)

  predicate AnswersOk(xs: seq<Answer>) {
    forall k :: 0 <= k < |xs| ==> UnitDraw(xs[k].u)
  }

  /** The score of one shown equation: check_equation_answer on the key pressed, 0 on a timeout. */
  function MathScore(equations: seq<Equation>, a: Answer): (score: int)
    requires 0 < |equations| && UnitDraw(a.u)
    ensures score == 0 || score == 1
    ensures a.press.None? ==> score == 0
  {
    match a.press
    case None => 0
    case Some(p) => CheckEquationAnswer(KeyName(p.key), equations[EquationIndex(|equations|, a.u)].answer)
  }

  // ---------------------------------------------------------------------------
  // The response buffer of getcharacterinput
  // ---------------------------------------------------------------------------

  /** A key accepted at the recall cursor: a letter, backspace or return. */
  datatype KeyEvent = Letter(c: char) | Backspace | Return

  /**
    The response text after one key other than return: a letter appends a space
    and the letter; backspace drops the last two characters (Python's
    text[0:len(text)-2], which is empty when the text is shorter than two).
   */
  function KeyStep(text: string, ev: KeyEvent): (next: string)
    requires !ev.Return?
    ensures ev.Letter? ==> |next| == |text| + 2 && next[..|text|] == text && next[|text|..] == [' ', ev.c]
    ensures ev.Backspace? ==> |next| == (if |text| >= 2 then |text| - 2 else 0) && next == text[..|next|]
  {
    match ev
    case Letter(c) => text + [' ', c]
    case Backspace => if |text| >= 2 then text[..|text| - 2] else ""
  }

  /** A response made of space-letter pairs, the shape every answer string has. */
  predicate Paired(text: string) {
    |text| % 2 == 0 && forall k :: 0 <= k < |text| / 2 ==> text[2 * k] == ' '
  }

  /** The text getcharacterinput returns after starting from text and reading evs up to the first return. */
  function Entry(text: string, evs: seq<KeyEvent>): string
    decreases |evs|
  {
    if evs == [] || evs[0].Return? then text else Entry(KeyStep(text, evs[0]), evs[1..])
  }

  /** Each key other than return lengthens the response by at most two characters. */
  lemma {:induction false} EntryLength(text: string, evs: seq<KeyEvent>)
    ensures |Entry(text, evs)| <= |text| + 2 * |evs|
    decreases |evs|
  {
    if evs != [] && !evs[0].Return? {
      var next := KeyStep(text, evs[0]);
      assert Entry(text, evs) == Entry(next, evs[1..]);
      assert |next| <= |text| + 2;
      EntryLength(next, evs[1..]);
    }
  }

  /** A response made of space-letter pairs stays so, because backspace removes a whole pair. */
  lemma {:induction false} EntryKeepsPairs(text: string, evs: seq<KeyEvent>)
    requires Paired(text)
    ensures Paired(Entry(text, evs))
    decreases |evs|
  {
    if evs != [] && !evs[0].Return? {
      var next := KeyStep(text, evs[0]);
      assert Entry(text, evs) == Entry(next, evs[1..]);
      forall k | 0 <= k < |next| / 2 ensures next[2 * k] == ' ' {
        if 2 * k < |text| { assert next[2 * k] == text[2 * k]; }
      }
      EntryKeepsPairs(next, evs[1..]);
    }
  }

  /** Return ends the input: nothing typed after it reaches the response. */
  lemma ReturnEnds(text: string, rest: seq<KeyEvent>)
    ensures Entry(text, [Return] + rest) == text
  {
  }

  /** A letter followed by backspace leaves the response as it was. */
  lemma BackspaceUndoesLetter(text: string, c: char, rest: seq<KeyEvent>)
    ensures Entry(text, [Letter(c), Backspace] + rest) == Entry(text, rest)
  {
    var evs := [Letter(c), Backspace] + rest;
    assert evs[1..] == [Backspace] + rest;
    assert ([Backspace] + rest)[1..] == rest;
    assert KeyStep(KeyStep(text, Letter(c)), Backspace) == text;
  }

  /** Backspace on an empty response leaves it empty. */
  lemma BackspaceOnEmpty(rest: seq<KeyEvent>)
    ensures Entry("", [Backspace] + rest) == Entry("", rest)
  {
    assert ([Backspace] + rest)[1..] == rest;
  }

  /** The answer string built during presentation: answer + ' ' + character for each letter shown. */
  function AnswerString(cs: seq<char>): (answer: string)
    ensures |answer| == 2 * |cs|
    decreases |cs|
  {
    if cs == [] then "" else [' ', cs[0]] + AnswerString(cs[1..])
  }

  /** Showing one more letter extends the answer by a space and that letter. */
  lemma {:induction false} AnswerStringSnoc(cs: seq<char>, c: char)
    ensures AnswerString(cs + [c]) == AnswerString(cs) + [' ', c]
    decreases |cs|
  {
    if cs != [] {
      assert (cs + [c])[1..] == cs[1..] + [c];
      AnswerStringSnoc(cs[1..], c);
    }
  }

  /** Two letter sequences give the same answer string exactly when they are equal. */
  lemma {:induction false} AnswerStringInjective(xs: seq<char>, ys: seq<char>)
    ensures AnswerString(xs) == AnswerString(ys) <==> xs == ys
    decreases |xs|
  {
    if xs != [] && ys != [] && AnswerString(xs) == AnswerString(ys) {
      var ax, ay := AnswerString(xs), AnswerString(ys);
      assert ax[1] == xs[0] && ay[1] == ys[0];
      assert ax[2..] == AnswerString(xs[1..]);
      assert ay[2..] == AnswerString(ys[1..]);
      AnswerStringInjective(xs[1..], ys[1..]);
      assert xs == [xs[0]] + xs[1..];
      assert ys == [ys[0]] + ys[1..];
    }
  }

  /** The key events of typing the letters cs. */
  function Letters(cs: seq<char>): seq<KeyEvent>
    decreases |cs|
  {
    if cs == [] then [] else [Letter(cs[0])] + Letters(cs[1..])
  }

  /** Typing letters at the cursor appends their answer string to the response. */
  lemma {:induction false} TypingLetters(text: string, cs: seq<char>, tail: seq<KeyEvent>)
    ensures Entry(text, Letters(cs) + tail) == Entry(text + AnswerString(cs), tail)
    decreases |cs|
  {
    if cs == [] {
      assert Letters(cs) + tail == tail;
      assert text + AnswerString(cs) == text;
    } else {
      var evs := Letters(cs) + tail;
      assert evs[0] == Letter(cs[0]);
      assert evs[1..] == Letters(cs[1..]) + tail;
      TypingLetters(text + [' ', cs[0]], cs[1..], tail);
      assert text + [' ', cs[0]] + AnswerString(cs[1..]) == text + AnswerString(cs);
    }
  }

  /**
    Typing the letters typed, then return, matches the answer string of the
    letters shown exactly when the two letter sequences are the same.
   */
  lemma RecallMatches(shown: seq<char>, typed: seq<char>, rest: seq<KeyEvent>)
    ensures Entry("", Letters(typed) + ([Return] + rest)) == AnswerString(typed)
    ensures Entry("", Letters(typed) + ([Return] + rest)) == AnswerString(shown) <==> typed == shown
  {
    TypingLetters("", typed, [Return] + rest);
    ReturnEnds("" + AnswerString(typed), rest);
    assert "" + AnswerString(typed) == AnswerString(typed);
    AnswerStringInjective(typed, shown);
  }

  /** getcharacterinput: read keys until return, updating the response text. */
  method GetCharacterInput(events: seq<KeyEvent>) returns (response: string)
    ensures response == Entry("", events)
  {
    response := "";
    var enterkey := false;
    var i := 0;
    while !enterkey && i < |events|
      invariant i <= |events|
      invariant enterkey ==> response == Entry("", events)
      invariant !enterkey ==> Entry(response, events[i..]) == Entry("", events)
      decreases |events| - i, !enterkey
    {
      var key := events[i];
      assert events[i..][1..] == events[i + 1..];
      i := i + 1;
      if !key.Return? {
        response := KeyStep(response, key);
      } else {
        enterkey := true;
      }
    }
  }

  /** The presentation loop: answer = answer + ' ' + characters[t] for t in 0..span-1. */
  method PresentLetters(characters: array<char>, span: nat) returns (answer: string)
    requires span <= characters.Length
    ensures answer == AnswerString(characters[..span])
  {
    answer := "";
    for t := 0 to span
      invariant answer == AnswerString(characters[..t])
    {
      AnswerStringSnoc(characters[..t], characters[t]);
      TakeOneMore(characters[..], t);
      answer := answer + [' ', characters[t]];
    }
  }

  // ---------------------------------------------------------------------------
  // Rounds and the order of the consonants
  // ---------------------------------------------------------------------------

  /**
    The input of one recall round: the unit draws of the shuffle(characters)
    that opens it, the equations answered in it, and the keys typed at the
    recall cursor.
   */
  datatype Round = Round(draws: seq<real>, answers: seq<Answer>, keys: seq<KeyEvent>)

  predicate RoundOk(n: nat, r: Round) {
    |r.draws| == DrawsFor(n) && UnitDraws(r.draws) && AnswersOk(r.answers)
  }

  predicate RoundsOk(n: nat, rs: seq<Round>) {
    forall k :: 0 <= k < |rs| ==> RoundOk(n, rs[k])
  }

  /** The order of the consonants after the shuffles of the rounds rs, in turn. */
  function ShuffledRounds(c: seq<char>, rs: seq<Round>): (order: seq<char>)
    requires RoundsOk(|c|, rs)
    ensures |order| == |c|
    decreases |rs|
  {
    if rs == [] then c else Shuffled(ShuffledRounds(c, rs[..|rs| - 1]), rs[|rs| - 1].draws)
  }

  /** However many rounds are played, the consonants are only rearranged. */
  lemma {:induction false} ShuffledRoundsPermutes(c: seq<char>, rs: seq<Round>)
    requires RoundsOk(|c|, rs)
    ensures multiset(ShuffledRounds(c, rs)) == multiset(c)
    decreases |rs|
  {
    if rs != [] {
      ShuffledRoundsPermutes(c, rs[..|rs| - 1]);
      ShuffledPermutes(ShuffledRounds(c, rs[..|rs| - 1]), rs[|rs| - 1].draws);
    }
  }

  /** The order the consonants are shown in during round k. */
  function OrderIn(c: seq<char>, rs: seq<Round>, k: nat): (order: seq<char>)
    requires RoundsOk(|c|, rs) && k < |rs|
    ensures |order| == |c|
    ensures order == Shuffled(ShuffledRounds(c, rs[..k]), rs[k].draws)
    ensures order == ShuffledRounds(c, rs[..k + 1])
  {
    TakeTake(rs, k + 1, k);
    ShuffledRounds(c, rs[..k + 1])
  }

  /** Whether the response typed in a round equals the answer string of the first span letters shown. */
  predicate Recalled(order: seq<char>, span: nat, keys: seq<KeyEvent>)
    requires span <= |order|
  {
    Entry("", keys) == AnswerString(order[..span])
  }

  // ---------------------------------------------------------------------------
  // Character practice
  // ---------------------------------------------------------------------------

  /** One character-practice round: shuffle, present span letters, read the response and compare. */
  method CharacterRound(characters: array<char>, span: nat, round: Round) returns (matched: bool)
    requires span <= characters.Length && RoundOk(characters.Length, round)
    modifies characters
    ensures characters[..] == Shuffled(old(characters[..]), round.draws)
    ensures matched == Recalled(characters[..], span, round.keys)
  {
    Shuffle(characters, round.draws);
    var answer := PresentLetters(characters, span);
    var response := GetCharacterInput(round.keys);
    matched := response == answer;
  }

  /** The number of the first n character-practice rounds whose recall matched; round k shows 3 + k letters. */
  function CharacterScore(c: seq<char>, rs: seq<Round>, n: nat): (ncorrect: nat)
    requires SpanHigh <= |c| && RoundsOk(|c|, rs) && n <= |rs| <= |SpanSeq(SpanLow, SpanHigh)|
    ensures ncorrect <= n
    decreases n
  {
    if n == 0 then 0
    else
      var span := SpanSeq(SpanLow, SpanHigh)[n - 1];
      CharacterScore(c, rs, n - 1) + (if Recalled(OrderIn(c, rs, n - 1), span, rs[n - 1].keys) then 1 else 0)
  }

  /**
    The character practice: one round per span length 3..7, each shuffling the
    consonants, showing the first span of them and scoring the recall. The
    early exit once every round has matched never skips a round.
   */
  method CharacterPractice(characters: array<char>, rounds: seq<Round>) returns (ncorrect: nat)
    requires SpanHigh <= characters.Length
    requires |rounds| == |SpanSeq(SpanLow, SpanHigh)| && RoundsOk(characters.Length, rounds)
    modifies characters
    ensures characters[..] == ShuffledRounds(old(characters[..]), rounds)
    ensures ncorrect == CharacterScore(old(characters[..]), rounds, |rounds|)
    ensures ncorrect <= |rounds|
  {
    ghost var c0 := characters[..];
    var spanseq := SpanSeq(SpanLow, SpanHigh);
    ncorrect := 0;
    var i := 0;
    assert rounds[..0] == [];
    // The source leaves the loop with break once ncorrect reaches len(spanseq),
    // which can only happen after a match; the guard below tests the same.
    while i < |spanseq| && ncorrect < |spanseq|
      invariant i <= |spanseq| && ncorrect <= i
      invariant characters[..] == ShuffledRounds(c0, rounds[..i])
      invariant ncorrect == CharacterScore(c0, rounds, i)
    {
      var matched := CharacterRound(characters, spanseq[i], rounds[i]);
      assert characters[..] == OrderIn(c0, rounds, i);
      if matched {
        ncorrect := ncorrect + 1;
      }
      i := i + 1;
    }
    TakeAll(rounds);
  }

  // ---------------------------------------------------------------------------
  // Equation practice
  // ---------------------------------------------------------------------------

  /** The reaction times equation practice keeps from the attempts xs: one per correct answer, in order. */
  function CorrectRts(equations: seq<Equation>, xs: seq<Answer>): (rts: seq<real>)
    requires 0 < |equations| && AnswersOk(xs)
    ensures |rts| <= |xs|
    decreases |xs|
  {
    if xs == [] then []
    else
      var last := xs[|xs| - 1];
      CorrectRts(equations, xs[..|xs| - 1]) + Kept(equations, last)
  }

  /** The reaction time one practice attempt contributes: its own when answered correctly, none otherwise. */
  function Kept(equations: seq<Equation>, a: Answer): (rt: seq<real>)
    requires 0 < |equations| && UnitDraw(a.u)
    ensures |rt| <= 1
    ensures |rt| == 1 <==> MathScore(equations, a) == 1
  {
    if MathScore(equations, a) > 0 then [a.press.value.rt] else []
  }

  /** The reaction times kept from a prefix of the attempts stay at the front, in the same order. */
  lemma {:induction false} CorrectRtsPrefix(equations: seq<Equation>, xs: seq<Answer>, n: nat)
    requires 0 < |equations| && AnswersOk(xs) && n <= |xs|
    ensures CorrectRts(equations, xs[..n]) <= CorrectRts(equations, xs)
    decreases |xs|
  {
    if n == |xs| {
      TakeAll(xs);
    } else {
      var init := xs[..|xs| - 1];
      CorrectRtsPrefix(equations, init, n);
      TakeTake(xs, |xs| - 1, n);
      var before, all := CorrectRts(equations, init), CorrectRts(equations, xs);
      assert all == before + Kept(equations, xs[|xs| - 1]);
      assert before <= all;
    }
  }

  /**
    The equation practice: draw an equation, read a key, and on a correct answer
    store its reaction time at the next slot, until nmathpractice answers were
    correct.
   */
  method EquationPractice(equations: seq<Equation>, attempts: seq<Answer>)
      returns (rts: array<real>, ncorrect: nat, used: nat)
    requires 0 < |equations| && AnswersOk(attempts)
    ensures fresh(rts) && rts.Length == NMathPractice
    ensures used <= |attempts| && ncorrect <= NMathPractice
    ensures ncorrect == |CorrectRts(equations, attempts[..used])|
    ensures rts[..ncorrect] == CorrectRts(equations, attempts[..used])
    ensures ncorrect < NMathPractice ==> used == |attempts|
    ensures ncorrect == NMathPractice ==> 0 < used && |Kept(equations, attempts[used - 1])| == 1
  {
    rts := new real[NMathPractice];
    ncorrect, used := 0, 0;
    assert attempts[..0] == [];
    while ncorrect < NMathPractice && used < |attempts|
      invariant used <= |attempts| && ncorrect <= NMathPractice
      invariant rts[..ncorrect] == CorrectRts(equations, attempts[..used])
      invariant ncorrect == NMathPractice ==> 0 < used && |Kept(equations, attempts[used - 1])| == 1
      decreases |attempts| - used
    {
      var a := attempts[used];
      TakeOneMore(attempts, used);
      TakeSnoc(attempts[..used], a);
      used := used + 1;
      ncorrect := PracticeAttempt(rts, ncorrect, equations, a);
    }
  }

  /** One equation-practice attempt: on a correct answer, equation_rt_array[ncorrect] := rt and ncorrect += 1. */
  method PracticeAttempt(rts: array<real>, ncorrect: nat, equations: seq<Equation>, a: Answer) returns (next: nat)
    requires ncorrect < rts.Length && 0 < |equations| && UnitDraw(a.u)
    modifies rts
    ensures next == ncorrect + |Kept(equations, a)|
    ensures rts[..next] == old(rts[..ncorrect]) + Kept(equations, a)
  {
    next := ncorrect;
    if a.press.Some? {
      var eq := equations[EquationIndex(|equations|, a.u)];
      if CheckEquationAnswer(KeyName(a.press.value.key), eq.answer) > 0 {
        rts[ncorrect] := a.press.value.rt;
        next := ncorrect + 1;
      }
    }
  }

  // ---------------------------------------------------------------------------
  // Timeouts and math scores
  // ---------------------------------------------------------------------------

  /** The number of equations among xs whose deadline ran out. */
  function Timeouts(xs: seq<Answer>): (n: nat)
    ensures n <= |xs|
    ensures n == 0 <==> forall k :: 0 <= k < |xs| ==> xs[k].press.Some?
    decreases |xs|
  {
    if xs == [] then 0
    else Timeouts(xs[..|xs| - 1]) + (if xs[|xs| - 1].press.None? then 1 else 0)
  }

  /** The contents of mathcorrect: each equation's score as a float. */
  function Scores(equations: seq<Equation>, xs: seq<Answer>): (scores: seq<real>)
    requires 0 < |equations| && AnswersOk(xs)
    ensures |scores| == |xs|
  {
    seq(|xs|, k requires 0 <= k < |xs| => MathScore(equations, xs[k]) as real)
  }

  /** The sum of a sequence of reals. */
  function Total(xs: seq<real>): real
    decreases |xs|
  {
    if xs == [] then 0.0 else Total(xs[..|xs| - 1]) + xs[|xs| - 1]
  }

  /** np.mean of a non-empty sequence of reals. */
  function Mean(xs: seq<real>): real
    requires xs != []
  {
    Total(xs) / |xs| as real
  }

  /** The scores add up to at most the number of equations answered in time. */
  lemma {:induction false} ScoresBound(equations: seq<Equation>, xs: seq<Answer>)
    requires 0 < |equations| && AnswersOk(xs)
    ensures 0.0 <= Total(Scores(equations, xs)) <= (|xs| - Timeouts(xs)) as real
    decreases |xs|
  {
    if xs != [] {
      var init := xs[..|xs| - 1];
      ScoresBound(equations, init);
      assert Scores(equations, xs)[..|xs| - 1] == Scores(equations, init);
    }
  }

  // ---------------------------------------------------------------------------
  // Full practice
  // ---------------------------------------------------------------------------

  /** The rounds of the full practice: well-formed, two equations each. */
  predicate PracticeRoundsOk(n: nat, rs: seq<Round>) {
    RoundsOk(n, rs) && forall k :: 0 <= k < |rs| ==> |rs[k].answers| == FullPracticeSpan
  }

  /**
    The full-practice tally as written over the first n rounds: one up for a
    matched recall, then one down when the round's last equation timed out.
   */
  function PracticeTallyAsWritten(c: seq<char>, rs: seq<Round>, n: nat): (ntrialscorrect: int)
    requires FullPracticeSpan <= |c| && PracticeRoundsOk(|c|, rs) && n <= |rs|
    ensures -(n as int) <= ntrialscorrect <= n
    decreases n
  {
    if n == 0 then 0
    else
      var r := rs[n - 1];
      PracticeTallyAsWritten(c, rs, n - 1)
        + (if Recalled(OrderIn(c, rs, n - 1), FullPracticeSpan, r.keys) then 1 else 0)
        - (if r.answers[FullPracticeSpan - 1].press.None? then 1 else 0)
  }

  /** As written, one round with a failed recall and a late second equation leaves the tally at -1. */
  lemma PracticeTallyGoesNegative()
    ensures PracticeTallyAsWritten("bc", [LateRound()], 1) == -1
  {
    var r := LateRound();
    assert PracticeRoundsOk(2, [r]);
    assert [r][..0] == [];
    var order := OrderIn("bc", [r], 0);
    assert |AnswerString(order[..FullPracticeSpan])| == 4;
    assert Entry("", r.keys) == "";
  }

  /** A round of the full practice in which return is pressed at once and the second equation times out. */
  function LateRound(): (r: Round)
    ensures RoundOk(2, r) && |r.answers| == FullPracticeSpan
  {
    Round([0.0], [Answer(0.0, Some(Press(J, 1.0))), Answer(0.0, None)], [Return])
  }

  /**
    The full-practice tally as the score message means it: the number of the
    first n rounds whose recall matched and none of whose equations timed out.
   */
  function PracticeTally(c: seq<char>, rs: seq<Round>, n: nat): (ntrialscorrect: int)
    requires FullPracticeSpan <= |c| && PracticeRoundsOk(|c|, rs) && n <= |rs|
    ensures 0 <= ntrialscorrect <= n
    decreases n
  {
    if n == 0 then 0
    else
      var r := rs[n - 1];
      PracticeTally(c, rs, n - 1)
        + (if Recalled(OrderIn(c, rs, n - 1), FullPracticeSpan, r.keys) && Timeouts(r.answers) == 0 then 1 else 0)
  }

  /** When no equation of the first n rounds timed out, the tally as written is the corrected one. */
  lemma {:induction false} PracticeTallyAgreesWithoutTimeouts(c: seq<char>, rs: seq<Round>, n: nat)
    requires FullPracticeSpan <= |c| && PracticeRoundsOk(|c|, rs) && n <= |rs|
    requires forall k :: 0 <= k < n ==> Timeouts(rs[k].answers) == 0
    ensures PracticeTallyAsWritten(c, rs, n) == PracticeTally(c, rs, n)
    decreases n
  {
    if n > 0 {
      PracticeTallyAgreesWithoutTimeouts(c, rs, n - 1);
      assert rs[n - 1].answers[FullPracticeSpan - 1].press.Some?;
    }
  }

  /**
    One full-practice round: shuffle, then two equation-letter pairs, noting
    whether any equation timed out, then the recall.
   */
  method PracticeRound(characters: array<char>, round: Round) returns (counted: bool)
    requires FullPracticeSpan <= characters.Length && RoundOk(characters.Length, round)
    requires |round.answers| == FullPracticeSpan
    modifies characters
    ensures characters[..] == Shuffled(old(characters[..]), round.draws)
    ensures counted == (Recalled(characters[..], FullPracticeSpan, round.keys) && Timeouts(round.answers) == 0)
  {
    Shuffle(characters, round.draws);
    var answer, trialincorrect := PracticePairs(characters, round.answers);
    var response := GetCharacterInput(round.keys);
    counted := response == answer && trialincorrect == 0;
  }

  /**
    The equation-letter pairs of a full-practice round: each equation either
    answered or timed out, then its letter added to the answer string.
   */
  method PracticePairs(characters: array<char>, answers: seq<Answer>) returns (answer: string, trialincorrect: int)
    requires |answers| <= characters.Length
    ensures answer == AnswerString(characters[..|answers|])
    ensures trialincorrect == if Timeouts(answers) == 0 then 0 else 1
  {
    answer := "";
    trialincorrect := 0;
    for t := 0 to |answers|
      invariant answer == AnswerString(characters[..t])
      invariant trialincorrect == if Timeouts(answers[..t]) == 0 then 0 else 1
    {
      TakeOneMore(answers, t);
      TakeSnoc(answers[..t], answers[t]);
      if answers[t].press.None? {
        trialincorrect := 1;
      }
      AnswerStringSnoc(characters[..t], characters[t]);
      TakeOneMore(characters[..], t);
      answer := answer + [' ', characters[t]];
    }
    TakeAll(answers);
  }

  /** The full practice: three rounds, tallied by PracticeTally. */
  method FullPractice(characters: array<char>, rounds: seq<Round>) returns (ntrialscorrect: int)
    requires FullPracticeSpan <= characters.Length
    requires |rounds| == NFullPractice && PracticeRoundsOk(characters.Length, rounds)
    modifies characters
    ensures characters[..] == ShuffledRounds(old(characters[..]), rounds)
    ensures ntrialscorrect == PracticeTally(old(characters[..]), rounds, |rounds|)
    ensures 0 <= ntrialscorrect <= NFullPractice
  {
    ghost var c0 := characters[..];
    ntrialscorrect := 0;
    assert rounds[..0] == [];
    for i := 0 to NFullPractice
      invariant characters[..] == ShuffledRounds(c0, rounds[..i])
      invariant ntrialscorrect == PracticeTally(c0, rounds, i)
    {
      var counted := PracticeRound(characters, rounds[i]);
      assert characters[..] == OrderIn(c0, rounds, i);
      if counted {
        ntrialscorrect := ntrialscorrect + 1;
      }
    }
    TakeAll(rounds);
  }

  // ---------------------------------------------------------------------------
  // Full task
  // ---------------------------------------------------------------------------

  /** spanorder: the span lengths 3..7 after shuffle(spanorder) with the draws ds. */
  function SpanOrder(ds: seq<real>): (spans: seq<int>)
    requires |ds| == DrawsFor(|SpanSeq(SpanLow, SpanHigh)|) && UnitDraws(ds)
    ensures |spans| == |SpanSeq(SpanLow, SpanHigh)|
    ensures multiset(spans) == multiset(SpanSeq(SpanLow, SpanHigh))
    ensures forall k :: 0 <= k < |spans| ==> SpanLow <= spans[k] <= SpanHigh
  {
    var spans := Shuffled(SpanSeq(SpanLow, SpanHigh), ds);
    ShuffledPermutes(SpanSeq(SpanLow, SpanHigh), ds);
    SpansInRange(spans);
    spans
  }

  /** A rearrangement of 3..7 holds only span lengths in 3..7. */
  lemma SpansInRange(spans: seq<int>)
    requires multiset(spans) == multiset(SpanSeq(SpanLow, SpanHigh))
    ensures forall k :: 0 <= k < |spans| ==> SpanLow <= spans[k] <= SpanHigh
  {
    forall k | 0 <= k < |spans|
      ensures SpanLow <= spans[k] <= SpanHigh
    {
      assert spans[k] in multiset(spans);
      assert spans[k] in SpanSeq(SpanLow, SpanHigh);
    }
  }

  /**
    The inputs of the full task fit together: the spans are the lengths of
    the five blocks and fit the consonant list, and the round of data row r
    answers as many equations as the span of its block.
   */
  predicate TaskOk(n: nat, equations: seq<Equation>, spans: seq<int>, rounds: seq<Round>) {
    && 0 < |equations|
    && |spans| == |SpanSeq(SpanLow, SpanHigh)|
    && |rounds| == NRows
    && RoundsOk(n, rounds)
    && (forall k :: 0 <= k < |spans| ==> 0 < spans[k] <= n)
    && (forall r :: 0 <= r < NRows ==> |rounds[r].answers| == spans[r / NSpanIterations])
  }

  /**
    Columns 0..4 of a data row: iteration + 1, span, the mean of mathcorrect,
    nmathtimeout and trialcorrect (whether the recall matched the letters shown).
   */
  function TaskRow(equations: seq<Equation>, order: seq<char>, iteration: nat, span: int, r: Round): (row: seq<real>)
    requires 0 < |equations| && 0 < span <= |order| && |r.answers| == span && AnswersOk(r.answers)
    ensures |row| == 5
  {
    [ (iteration + 1) as real,
      span as real,
      Mean(Scores(equations, r.answers)),
      Timeouts(r.answers) as real,
      if Recalled(order, span, r.keys) then 1.0 else 0.0 ]
  }

  /**
    What each data row holds: the math accuracy lies in [0, 1] and leaves room
    for the timeouts (a timeout scores 0), the timeouts number at most the span,
    and the recall column is 0 or 1.
   */
  lemma TaskRowBounds(equations: seq<Equation>, order: seq<char>, iteration: nat, span: int, r: Round)
    requires 0 < |equations| && 0 < span <= |order| && |r.answers| == span && AnswersOk(r.answers)
    ensures var row := TaskRow(equations, order, iteration, span, r);
      && 0.0 <= row[2] <= 1.0
      && 0.0 <= row[3] <= span as real
      && row[2] <= 1.0 - row[3] / span as real
      && (row[4] == 0.0 || row[4] == 1.0)
  {
    ScoresBound(equations, r.answers);
    var t, tm, s := Total(Scores(equations, r.answers)), Timeouts(r.answers) as real, span as real;
    MeanBounds(t, tm, s);
    var row := TaskRow(equations, order, iteration, span, r);
    assert row[2] == t / s && row[3] == tm;
  }

  /** The mean of scores totalling t over s equations, tm of them timed out. */
  lemma MeanBounds(t: real, tm: real, s: real)
    requires 0.0 < s && 0.0 <= tm <= s && 0.0 <= t <= s - tm
    ensures 0.0 <= t / s <= 1.0
    ensures t / s <= 1.0 - tm / s
  {
    var d := (1.0 - tm / s) - t / s;
    assert d * s == (s - tm) - t;
    assert 0.0 <= t / s by {
      assert (t / s) * s == t;
    }
    assert 0.0 <= tm / s by {
      assert (tm / s) * s == tm;
    }
  }

  /** The row datarowindex r holds when the full task is over. */
  function ExpectedRow(equations: seq<Equation>, c0: seq<char>, spans: seq<int>, rounds: seq<Round>, r: nat): (row: seq<real>)
    requires TaskOk(|c0|, equations, spans, rounds) && r < NRows
    ensures |row| == 5
  {
    TaskRow(equations, OrderIn(c0, rounds, r), r % NSpanIterations, spans[r / NSpanIterations], rounds[r])
  }

  /** The expected rows of the whole data matrix, one per datarowindex. */
  function ExpectedRows(equations: seq<Equation>, c0: seq<char>, spans: seq<int>, rounds: seq<Round>): (rows: seq<seq<real>>)
    requires TaskOk(|c0|, equations, spans, rounds)
    ensures |rows| == NRows && forall r :: 0 <= r < NRows ==> |rows[r]| == 5
  {
    seq(NRows, r requires 0 <= r < NRows => ExpectedRow(equations, c0, spans, rounds, r))
  }

  /** Rows 0..n-1 of the data matrix hold the columns 0..4 of the expected rows. */
  predicate RowsHold(data: array2<real>, expected: seq<seq<real>>, n: nat)
    reads data
  {
    && n <= |expected| == data.Length0 && data.Length1 == NColumns
    && (forall r :: 0 <= r < |expected| ==> |expected[r]| == 5)
    && forall r, col :: 0 <= r < n && 0 <= col < 5 ==> data[r, col] == expected[r][col]
  }

  /**
    The equations-and-letters loop of one full-task trial: mathcorrect[t] the
    score of equation t (0 on a timeout, which also counts in nmathtimeout), and
    the letter shown after it added to the answer string.
   */
  method EquationsAndLetters(characters: array<char>, equations: seq<Equation>, answers: seq<Answer>)
      returns (mathcorrect: array<real>, nmathtimeout: nat, charanswer: string)
    requires 0 < |equations| && |answers| <= characters.Length && AnswersOk(answers)
    ensures fresh(mathcorrect)
    ensures mathcorrect[..] == Scores(equations, answers)
    ensures nmathtimeout == Timeouts(answers) && nmathtimeout <= |answers|
    ensures charanswer == AnswerString(characters[..|answers|])
  {
    mathcorrect := new real[|answers|];
    nmathtimeout := 0;
    charanswer := "";
    for t := 0 to |answers|
      invariant forall k :: 0 <= k < t ==> mathcorrect[k] == MathScore(equations, answers[k]) as real
      invariant nmathtimeout == Timeouts(answers[..t])
      invariant charanswer == AnswerString(characters[..t])
    {
      TakeOneMore(answers, t);
      TakeSnoc(answers[..t], answers[t]);
      var timedout := ScoreEquation(mathcorrect, t, equations, answers[t]);
      if timedout {
        nmathtimeout := nmathtimeout + 1;
      }
      AnswerStringSnoc(characters[..t], characters[t]);
      TakeOneMore(characters[..], t);
      charanswer := charanswer + [' ', characters[t]];
    }
    TakeAll(answers);
  }

  /** One equation of a full-task trial: mathcorrect[t] := its score, 0 when the deadline ran out. */
  method ScoreEquation(mathcorrect: array<real>, t: nat, equations: seq<Equation>, a: Answer) returns (timedout: bool)
    requires t < mathcorrect.Length && 0 < |equations| && UnitDraw(a.u)
    modifies mathcorrect
    ensures mathcorrect[..] == old(mathcorrect[..])[t := MathScore(equations, a) as real]
    ensures timedout == a.press.None?
  {
    match a.press {
      case Some(p) =>
        mathcorrect[t] := CheckEquationAnswer(KeyName(p.key), equations[EquationIndex(|equations|, a.u)].answer) as real;
        timedout := false;
      case None =>
        mathcorrect[t] := 0.0;
        timedout := true;
    }
  }

  /** One full-task trial, which fills data row `row`. */
  method SpanTrial(characters: array<char>, data: array2<real>, equations: seq<Equation>, row: nat, iteration: nat,
                   span: int, ghost c0: seq<char>, ghost spans: seq<int>, rounds: seq<Round>, ghost expected: seq<seq<real>>)
      returns (trialcorrect: int)
    requires TaskOk(|c0|, equations, spans, rounds) && expected == ExpectedRows(equations, c0, spans, rounds)
    requires row < NRows && characters.Length == |c0|
    requires iteration == row % NSpanIterations && span == spans[row / NSpanIterations]
    requires RowsHold(data, expected, row)
    requires characters[..] == ShuffledRounds(c0, rounds[..row])
    modifies characters, data
    ensures characters[..] == ShuffledRounds(c0, rounds[..row + 1])
    ensures RowsHold(data, expected, row + 1)
  {
    var round := rounds[row];
    Shuffle(characters, round.draws);
    assert characters[..] == OrderIn(c0, rounds, row);
    var mathcorrect, nmathtimeout, charanswer := EquationsAndLetters(characters, equations, round.answers);
    var response := GetCharacterInput(round.keys);
    trialcorrect := if response == charanswer then 1 else 0;
    var accuracy := Mean(mathcorrect[..]);
    var values := [(iteration + 1) as real, span as real, accuracy, nmathtimeout as real, trialcorrect as real];
    ghost var order := characters[..];
    assert |round.answers| == span && 0 < span <= |order|;
    assert AnswersOk(round.answers);
    assert values[2] == Mean(Scores(equations, round.answers));
    assert values[3] == Timeouts(round.answers) as real;
    assert trialcorrect == if Recalled(order, span, round.keys) then 1 else 0;
    TaskRowIs(equations, order, iteration, span, round, values);
    assert expected[row] == ExpectedRow(equations, c0, spans, rounds, row);
    StoreRow(data, row, values, expected);
  }

  /** The row values a trial computes are its TaskRow. */
  lemma TaskRowIs(equations: seq<Equation>, order: seq<char>, iteration: nat, span: int, r: Round, values: seq<real>)
    requires 0 < |equations| && 0 < span <= |order| && |r.answers| == span && AnswersOk(r.answers)
    requires |values| == 5 && values[0] == (iteration + 1) as real && values[1] == span as real
    requires values[2] == Mean(Scores(equations, r.answers))
    requires values[3] == Timeouts(r.answers) as real
    requires values[4] == if Recalled(order, span, r.keys) then 1.0 else 0.0
    ensures values == TaskRow(equations, order, iteration, span, r)
  {
  }

  /**
    data[row, 0..4] := the row's values. The source writes columns 0 and 1 when
    the trial begins and columns 2..4 when it ends; nothing reads the matrix in
    between.
   */
  method StoreRow(data: array2<real>, row: nat, values: seq<real>, ghost expected: seq<seq<real>>)
    requires RowsHold(data, expected, row) && row < |expected| && values == expected[row]
    modifies data
    ensures RowsHold(data, expected, row + 1)
  {
    data[row, 0] := values[0];
    data[row, 1] := values[1];
    data[row, 2] := values[2];
    data[row, 3] := values[3];
    data[row, 4] := values[4];
  }

  /** Row span * 3 + iteration belongs to block span and iteration iteration. */
  lemma RowIndex(span: nat, iteration: nat)
    requires iteration < NSpanIterations
    ensures (span * NSpanIterations + iteration) / NSpanIterations == span
    ensures (span * NSpanIterations + iteration) % NSpanIterations == iteration
  {
  }

  /** The iterations of one span length: three trials, filling three consecutive data rows. */
  method SpanBlock(characters: array<char>, data: array2<real>, equations: seq<Equation>, spanorder: array<int>,
                   span: nat, ghost c0: seq<char>, rounds: seq<Round>, ghost expected: seq<seq<real>>, row0: nat)
      returns (row: nat)
    requires TaskOk(|c0|, equations, spanorder[..], rounds)
    requires expected == ExpectedRows(equations, c0, spanorder[..], rounds)
    requires span < spanorder.Length && characters.Length == |c0| && row0 == span * NSpanIterations
    requires RowsHold(data, expected, row0)
    requires characters[..] == ShuffledRounds(c0, rounds[..row0])
    modifies characters, data
    ensures row == row0 + NSpanIterations
    ensures characters[..] == ShuffledRounds(c0, rounds[..row])
    ensures RowsHold(data, expected, row)
  {
    row := row0;
    var ntrialscorrect := 0;
    for iteration := 0 to NSpanIterations
      invariant row == row0 + iteration
      invariant characters[..] == ShuffledRounds(c0, rounds[..row])
      invariant RowsHold(data, expected, row)
    {
      RowIndex(span, iteration);
      var trialcorrect :=
        SpanTrial(characters, data, equations, row, iteration, spanorder[span], c0, spanorder[..], rounds, expected);
      ntrialscorrect := ntrialscorrect + trialcorrect;
      row := row + 1;
    }
  }

  /** spanorder = np.linspace(span_low, span_high, ...); shuffle(spanorder) */
  method MakeSpanOrder(orderdraws: seq<real>) returns (spanorder: array<int>)
    requires |orderdraws| == DrawsFor(|SpanSeq(SpanLow, SpanHigh)|) && UnitDraws(orderdraws)
    ensures fresh(spanorder)
    ensures spanorder[..] == SpanOrder(orderdraws)
  {
    var spanseq := SpanSeq(SpanLow, SpanHigh);
    spanorder := new int[|spanseq|](k requires 0 <= k < |spanseq| => spanseq[k]);
    assert spanorder[..] == spanseq;
    Shuffle(spanorder, orderdraws);
  }

  /**
    The full task: shuffle the span lengths, then for each span three trials,
    each filling the next row of the data matrix.
   */
  method FullTask(characters: array<char>, equations: seq<Equation>, orderdraws: seq<real>, rounds: seq<Round>)
      returns (spanorder: array<int>, data: array2<real>)
    requires SpanHigh <= characters.Length && 0 < |equations|
    requires |orderdraws| == DrawsFor(|SpanSeq(SpanLow, SpanHigh)|) && UnitDraws(orderdraws)
    requires |rounds| == NRows && RoundsOk(characters.Length, rounds)
    requires forall r :: 0 <= r < NRows ==> |rounds[r].answers| == SpanOrder(orderdraws)[r / NSpanIterations]
    modifies characters
    ensures fresh(spanorder) && fresh(data)
    ensures spanorder[..] == SpanOrder(orderdraws)
    ensures characters[..] == ShuffledRounds(old(characters[..]), rounds)
    ensures TaskOk(characters.Length, equations, spanorder[..], rounds)
    ensures RowsHold(data, ExpectedRows(equations, old(characters[..]), spanorder[..], rounds), NRows)
  {
    ghost var c0 := characters[..];
    spanorder := MakeSpanOrder(orderdraws);
    assert TaskOk(|c0|, equations, spanorder[..], rounds);
    ghost var expected := ExpectedRows(equations, c0, spanorder[..], rounds);
    data := new real[NRows, NColumns];
    var datarowindex := 0;
    assert rounds[..0] == [];
    for span := 0 to spanorder.Length
      modifies characters, data
      invariant datarowindex == span * NSpanIterations
      invariant characters[..] == ShuffledRounds(c0, rounds[..datarowindex])
      invariant RowsHold(data, expected, datarowindex)
    {
      datarowindex := SpanBlock(characters, data, equations, spanorder, span, c0, rounds, expected, datarowindex);
    }
    TakeAll(rounds);
  }
}
