# Two-step and operation-span task logic, in Dafny

This project models the bookkeeping under two PsychoPy experiments.

The first is the two-step decision task. A participant makes two key presses per trial. The first press picks one of two options; a probabilistic transition then leads to one of two second-stage states. The second press picks an option there, and a reward is drawn from that option's slowly drifting reward probability. The task exists in two forms, and each keeps its own abort policy:

- **Class form** (`Trials` in `psychopy/two-step-original/twostepcore.py`). A missed deadline aborts the trial. The trial's cells are padded with sentinels, the trial counter still advances, the block grows by one trial, and every reward path grows by one entry. `run` ends with exactly the requested number of completed trials. `savedata` then builds the theory-free "stay" table from consecutive completed trials.
- **Script form** (`psychopy/two-step/twostep.py`, and the two-trial demonstration `psychopy/twostep.py`). A missed deadline leaves the inner loop. Nothing is written and the trial counter does not advance, so the same slot is replayed. The demonstration also keeps a running reward tally.

The second experiment is the operation-span task (`psychopy/opspan/opspan.py`). It has four parts: letter-recall practice, equation practice, full practice, and the full task. In the full task, sets of equations alternate with letters to remember. Each trial writes one row of a 15-by-8 data matrix: iteration, span, math accuracy, math timeouts and recall correctness.

Every random draw and every key press is an input:

- a uniform draw is a real in [0, 1);
- a normal draw is any real;
- a key press is `Option<Press>`, with `None` for a deadline that passed;
- typed text is a sequence of letter, backspace and return events.

Python 2's `random.shuffle` is modelled exactly: position i swaps with position `int(random() * (i + 1))`. Statements about what the scripts compute are therefore statements about every possible draw and every possible response.

Files:

- `input.dfy`: keys and presses.
- `draws.dfy`: the numpy and random primitives, and the in-place shuffle.
- `seqs.dfy`: sequence-slicing facts.
- `twostep_core.dfy`: the class form.
- `twostep_script.dfy`: the script form.
- `twostep_mini.dfy`: the demonstration.
- `opspan.dfy`: the operation-span task.

Abort policy: the class form extends every reward path when a trial is aborted (`_updaterewardpaths` at twostepcore.py:317). The script forms leave the inner loop on a timeout without writing `paths` (two-step/twostep.py:690-695 and 723-728). The model follows each form's code.

## Model

| member | source | states |
|---|---|---|
| Input.KeyName | psychopy/two-step-original/twostepcore.py:185 | the reported key name is "f" exactly for the F key and "j" exactly for the J key |
| Input.Side | psychopy/two-step-original/twostepcore.py:171-172 | 'f' answers for the left item (index 0) and 'j' for the right one (index 1) |
| Draws.Clamp | psychopy/two-step-original/twostepcore.py:156 | np.maximum(np.minimum(x, hi), lo) lies in [lo, hi]; it is x inside the bounds, lo below them and hi above them |
| Draws.Uniform | psychopy/two-step-original/twostepcore.py:153 | np.random.uniform(lo, hi) lies in [lo, hi] and is below hi when lo < hi |
| Draws.Bernoulli | psychopy/two-step-original/twostepcore.py:285 | np.random.binomial(1, p) is 0 or 1, is 1 exactly when the draw falls below p, and is certain at p >= 1 and p <= 0 |
| Draws.Multinomial1 | psychopy/two-step-original/twostepcore.py:166-167 | a one-hot pair whose first cell is 1 exactly when the draw falls below p0 |
| Draws.ArgmaxInt | psychopy/two-step-original/twostepcore.py:259 | np.argmax of a pair is an index of a largest element, and ties go to 0 |
| Draws.ArgmaxReal | psychopy/two-step-original/twostepcore.py:263 | the same for a pair of probabilities |
| Draws.RandInt | psychopy/opspan/opspan.py:195 | numpy's randint(high) is an index below high |
| Draws.ShuffleIndex | psychopy/two-step/twostep.py:258 | the partner random.shuffle picks for position i is at most i |
| Draws.ShuffleFrom | psychopy/two-step/twostep.py:258 | the remaining swaps of random.shuffle keep the length |
| Draws.ShuffleFromPermutes | psychopy/two-step/twostep.py:258 | the remaining swaps only rearrange the list (equal multisets) |
| Draws.Shuffled | psychopy/opspan/opspan.py:303 | the list random.shuffle leaves has the length of the original |
| Draws.ShuffledPermutes | psychopy/opspan/opspan.py:303 | random.shuffle's result is a permutation of its input |
| Draws.Shuffle | psychopy/opspan/opspan.py:303 | the in-place Fisher-Yates loop leaves exactly Shuffled(old contents, draws), a permutation of the old contents |
| Draws.ShufflePair | psychopy/two-step/twostep.py:257-258 | shuffling a pair swaps it exactly when the draw is below one half |
| TwoStepCore.TransitionRow | psychopy/two-step-original/twostepcore.py:66-79 | option a1's row sums to 1, with ptrans at a1 and 1 - ptrans at the other index |
| TwoStepCore.Transition | psychopy/two-step-original/twostepcore.py:258-259 | s2 is 1 or 2, and is 1 exactly when the draw falls below the row's first entry |
| TwoStepCore.TransitionClass | psychopy/two-step-original/twostepcore.py:263-266 | trans_cr is 0 or 1, and is 1 exactly when s2 - 1 is the argmax of the chosen row |
| TwoStepCore.CommonIsOwnState | psychopy/two-step-original/twostepcore.py:258-266 | for ptrans above one half, a transition is common exactly when option a1 leads to state a1 + 1 |
| TwoStepCore.CommonDraws | psychopy/two-step-original/twostepcore.py:258-266 | the common transition happens on draws in [0, ptrans) after option 0 and in [1 - ptrans, 1) after option 1 |
| TwoStepCore.EvenTableCommonIsState1 | psychopy/two-step-original/twostepcore.py:263 | with ptrans = 0.5 the argmax tie makes only state 1 common |
| TwoStepCore.OptionIndex | psychopy/two-step-original/twostepcore.py:284 | option (s2, a2) has a flat index below 4 that recovers both s2 and a2 |
| TwoStepCore.WalkStep | psychopy/two-step-original/twostepcore.py:156 | one path step stays in [lo, hi] and equals the unclamped step when that is inside |
| TwoStepCore.Walk | psychopy/two-step-original/twostepcore.py:153-156 | a path over n normal draws has n + 1 entries and starts at the uniform draw |
| TwoStepCore.WalkInBounds | psychopy/two-step-original/twostepcore.py:151-156 | every entry of a path that starts in bounds lies in [preward_low, preward_high], for any noise |
| TwoStepCore.AppendRowOk | psychopy/two-step-original/twostepcore.py:358-369 | appending a well-formed row at index n keeps all n + 1 rows well formed |
| TwoStepCore.AbortFlags | psychopy/two-step-original/twostepcore.py:312-314 | the aborted column has one flag per iteration, 1 exactly for an iteration with a missed deadline |
| TwoStepCore.Extend | psychopy/two-step-original/twostepcore.py:162 | one update appends one entry, keeps the earlier entries, and keeps the path in bounds |
| TwoStepCore.ExtendWalk | psychopy/two-step-original/twostepcore.py:155-162 | extending a walk by one draw is the walk over one more draw |
| TwoStepCore.ExtendPaths | psychopy/two-step-original/twostepcore.py:158-162 | _updaterewardpaths extends each of the four paths by one clamped step |
| TwoStepCore.ExtendPathsOk | psychopy/two-step-original/twostepcore.py:312-317 | an update keeps every path in bounds and makes it one entry longer, matching the grown ntrials |
| TwoStepCore.Chosen | psychopy/two-step-original/twostepcore.py:166-192 | the pressed key selects option 1 exactly when placement and key agree (draw below one half with 'f', or not with 'j') |
| TwoStepCore.Abort1Row | psychopy/two-step-original/twostepcore.py:319-332 | a step-1 abort gives a well-formed aborted row with all nine choice and outcome cells padded |
| TwoStepCore.Abort2Row | psychopy/two-step-original/twostepcore.py:333-337 | a step-2 abort gives a well-formed aborted row that keeps a1, s2 and trans_cr and pads a2, a2_key, rt2 and r |
| TwoStepCore.DoneRow | psychopy/two-step-original/twostepcore.py:353-369 | a completed trial's row is well formed and its aborted flag is 0 |
| TwoStepCore.IterationRow | psychopy/two-step-original/twostepcore.py:353-369 | each iteration writes a well-formed row flagged 1 exactly when a deadline was missed |
| TwoStepCore.Abort1Data | psychopy/two-step-original/twostepcore.py:312-332 | run's appends plus abort_trial(step=1) add exactly one row to every column |
| TwoStepCore.Abort2Data | psychopy/two-step-original/twostepcore.py:312-337 | the appends of step1, state_transition and abort_trial(step=2) add exactly one row to every column |
| TwoStepCore.DoneData | psychopy/two-step-original/twostepcore.py:196-286 | the appends of a completed iteration add exactly one row to every column, with the reward drawn from entry t of the chosen path |
| TwoStepCore.IterationOk | psychopy/two-step-original/twostepcore.py:353-369 | every iteration keeps the block invariant: equal column lengths, in-bounds paths of length ntrials, lr sequences of length t, and ntrials = requested + aborted trials |
| TwoStepCore.FinishedBlockHasRequestedTrials | psychopy/two-step-original/twostepcore.py:312-317 | when t reaches ntrials the block holds exactly the requested number of completed trials |
| TwoStepCore.Rows | psychopy/two-step-original/twostepcore.py:380 | the row-wise view has one row per trial, row k holding entry k of every column |
| TwoStepCore.Included | psychopy/two-step-original/twostepcore.py:383 | df.ix[df.aborted == 0] keeps only rows flagged 0, each one a row of the table |
| TwoStepCore.IncludedAppend | psychopy/two-step-original/twostepcore.py:383 | the filter keeps trial order: filtering two runs of trials one after the other gives the two filtered runs one after the other |
| TwoStepCore.IncludedSingle | psychopy/two-step-original/twostepcore.py:383 | a single trial is kept exactly when its aborted flag is 0 |
| TwoStepCore.IncludedNone | psychopy/two-step-original/twostepcore.py:383 | a run of aborted trials contributes no rows |
| TwoStepCore.IncludedConsecutive | psychopy/two-step-original/twostepcore.py:383 | a completed trial and the next completed trial after it sit side by side, in trial order, in the included table |
| TwoStepCore.IncludedSize | psychopy/two-step-original/twostepcore.py:383 | the included rows are as many as the zeros of the aborted column |
| TwoStepCore.IncludedKeeps | psychopy/two-step-original/twostepcore.py:383 | every row flagged 0 is kept |
| TwoStepCore.Pair | psychopy/two-step-original/twostepcore.py:384-391 | stay is 1 exactly when consecutive included trials share a1; last_trans and last_rewarded come from the earlier trial and rt2 from the later one |
| TwoStepCore.StayTable | psychopy/two-step-original/twostepcore.py:384-392 | the stay table has one row fewer than the included trials, row k pairing included trials k and k + 1 |
| TwoStepCore.TheoryFree | psychopy/two-step-original/twostepcore.py:380-392 | savedata's table has one row fewer than the trials that were not aborted |
| TwoStepCore.StayPairsConsecutiveTrials | psychopy/two-step-original/twostepcore.py:383-392 | each completed trial and the next completed trial after it, in trial order, form one row of the stay table, so stay compares their first-stage choices |
| TwoStepCore.FinishedStayTableSize | psychopy/two-step-original/twostepcore.py:383-392 | after a finished block the stay table has requested - 1 rows |
| TwoStepCore.StayComparesCompletedChoices | psychopy/two-step-original/twostepcore.py:383-388 | every a1 the stay column compares is a real choice (0 or 1), never the -1 sentinel |
| TwoStepCore.Trials.constructor | psychopy/two-step-original/twostepcore.py:62-144 | the new block is valid, t = 0, ntrials as requested, empty data and lr sequences, placeholders 999, and each path is the walk from its uniform draw |
| TwoStepCore.Trials.InitRewardPaths | psychopy/two-step-original/twostepcore.py:146-156 | the nested loops leave each of the four paths equal to its walk: one uniform draw, then ntrials - 1 clamped steps |
| TwoStepCore.Trials.UpdateRewardPaths | psychopy/two-step-original/twostepcore.py:158-162 | each path gets exactly one more clamped step, and the earlier entries are unchanged |
| TwoStepCore.Trials.AbortTrial | psychopy/two-step-original/twostepcore.py:312-337 | the trial is marked aborted, t and ntrials each grow by one, the paths are updated, step 1 pads step2_lrsequence with [-1, -1], and the columns are padded as for the step |
| TwoStepCore.Trials.Step1 | psychopy/two-step-original/twostepcore.py:164-206 | one lr entry is appended; without a key the trial is aborted at step 1, and with one, a1 is the option on the pressed side and a1, a1_key and rt1 are appended |
| TwoStepCore.Trials.StateTransition | psychopy/two-step-original/twostepcore.py:254-266 | s2 is the drawn transition, and s2 and its common/rare class are appended |
| TwoStepCore.Trials.Step2 | psychopy/two-step-original/twostepcore.py:208-252 | as Step1 for the second stage, with an abort at step 2 padding a2, a2_key, rt2 and r |
| TwoStepCore.Trials.SampleReward | psychopy/two-step-original/twostepcore.py:281-286 | the reward is the Bernoulli draw on entry t of option (s2, a2)'s path, and t is in range |
| TwoStepCore.Trials.Iteration | psychopy/two-step-original/twostepcore.py:357-369 | t grows by exactly one, ntrials by one exactly on a missed deadline, the paths are extended exactly then, and every column gets exactly the row IterationRow describes |
| TwoStepCore.Trials.SecondStage | psychopy/two-step-original/twostepcore.py:363-369 | state_transition and step2, then the reward and t += 1 unless step 2 timed out |
| TwoStepCore.Trials.Run | psychopy/two-step-original/twostepcore.py:353-369 | the block invariant holds throughout; the aborted column grows by the inputs' flags; a finished block has exactly the requested completed trials |
| TwoStepScript.StimOrder | psychopy/two-step/twostep.py:257-258 | drawrect's stimulus order is a permutation of [0, 1] |
| TwoStepScript.StimOrderCases | psychopy/two-step/twostep.py:257-258 | the order is [1, 0] when the draw is below one half and [0, 1] otherwise |
| TwoStepScript.DrawRect | psychopy/two-step/twostep.py:249-277 | the list drawrect shuffles in place and returns is StimOrder of its draw |
| TwoStepScript.Key2Choice | psychopy/two-step/twostep.py:295-300 | 'f' picks stimorder[0] and 'j' picks stimorder[1] |
| TwoStepScript.KeysSelectDistinctOptions | psychopy/twostep.py:161-166 | under every stimulus order the two keys select two different options, each 0 or 1 |
| TwoStepScript.Transition | psychopy/two-step/twostep.py:289-292 | the state is 0 or 1, and is 1 exactly when the draw falls below ptrans[sel] with ptrans = [0.3, 0.7] |
| TwoStepScript.RewardPathUpdate | psychopy/twostep.py:169-170 | the updated row holds four probabilities in [lbound, ubound] for any noise, each equal to the unclamped step when that is in bounds |
| TwoStepScript.RewardIndex | psychopy/two-step/twostep.py:308 | 2*state + choice is below 4 and recovers state and choice |
| TwoStepScript.RewardFunction | psychopy/twostep.py:173-175 | the reward is 0 or 1, and is 1 exactly when the draw falls below the probability at 2*state + choice |
| TwoStepScript.InitialRow | psychopy/two-step/twostep.py:654 | paths[0] holds four uniform draws in [lbound, ubound] |
| TwoStepScript.Completed | psychopy/two-step/twostep.py:672-772 | the attempts that become trials are at most all of them, and each was answered at both stages |
| TwoStepScript.CompletedSnoc | psychopy/two-step/twostep.py:690-728 | one more attempt adds a trial exactly when neither stage timed out |
| TwoStepScript.CompletedAllAnswered | psychopy/two-step/twostep.py:690-728 | every attempt became a trial exactly when none timed out |
| TwoStepScript.PathRows | psychopy/two-step/twostep.py:653-654 | the path array has one row per finished trial plus row 0, each row of four in-bounds probabilities |
| TwoStepScript.PathRowsStep | psychopy/two-step/twostep.py:738-761 | row k + 1 is the update of row k with trial k's draws, so the row trial k reads its reward from is the one before the update |
| TwoStepScript.Record | psychopy/two-step/twostep.py:764-769 | a recorded trial has a state and two choices in {0, 1}, the state drawn from the first choice, a reward in {0, 1} drawn from its own path row, and the trial's reaction times and key names |
| TwoStepScript.TrialAtSnoc | psychopy/two-step/twostep.py:764-772 | a later trial leaves the records of the earlier trials unchanged |
| TwoStepScript.PathsStep | psychopy/two-step/twostep.py:761 | writing the update at row t + 1 extends the path rows by the new trial and leaves the later rows zero |
| TwoStepScript.SlotsStep | psychopy/two-step/twostep.py:764-769 | writing slot t of a data array extends its column by the new trial and leaves the later slots at their zero |
| TwoStepScript.LoopOkStep | psychopy/two-step/twostep.py:761-772 | the writes of one completed trial turn the loop state for t trials into the state for t + 1 |
| TwoStepScript.Store | psychopy/two-step/twostep.py:761-769 | row t + 1 of the paths and slot t of every data array get the new values, and nothing else changes |
| TwoStepScript.PlayTrial | psychopy/two-step/twostep.py:673-772 | a timeout at either stage writes nothing, leaving the loop state for slot t; an answered attempt extends it by exactly its trial |
| TwoStepScript.Allocate | psychopy/two-step/twostep.py:653-660 | the fresh zero arrays with row 0 drawn form the loop state for no trials |
| TwoStepScript.TrialsFrom | psychopy/two-step/twostep.py:673-772 | the inner loop keeps the loop state and consumes at least one attempt while slots and attempts remain |
| TwoStepScript.Experiment | psychopy/two-step/twostep.py:671-772 | slots 0..t-1 hold the completed attempts in order, later slots stay zero, and t = ntrials unless the attempts ran out |
| TwoStepScript.PracticeTrial | psychopy/two-step/twostep.py:545-636 | a practice trial writes only paths[t + 1], and only when both stages were answered |
| TwoStepScript.PracticeFrom | psychopy/two-step/twostep.py:545-636 | the inner practice loop keeps the path invariant and consumes at least one attempt while slots and attempts remain |
| TwoStepScript.Practice | psychopy/two-step/twostep.py:540-636 | the practice paths follow the completed attempts, and t = ntrain unless the attempts ran out |
| TwoStepMini.RewardSumStep | psychopy/twostep.py:321-322 | recording reward r at slot n adds r to the sum of slots 0..n-1 |
| TwoStepMini.RewardSumBounds | psychopy/twostep.py:242 | with 0/1 rewards the sum of slots 0..n-1 counts the rewarded trials and lies in 0..n |
| TwoStepMini.PlayAndTally | psychopy/twostep.py:248-361 | after a trial the tally still equals the sum of the recorded rewards; a timeout leaves both unchanged |
| TwoStepMini.TrialsFrom | psychopy/twostep.py:248-361 | the inner loop keeps the loop state and the tally invariant |
| TwoStepMini.Session | psychopy/twostep.py:203-361 | totalreward equals the sum of rewards[0..t) and lies in 0..t, with the loop state as in the two-step script |
| TwoStepMini.RewardsAreBinary | psychopy/twostep.py:353-355 | every reward the loop records is 0 or 1 |
| OpSpan.SpanSeq | psychopy/opspan/opspan.py:295 | np.linspace(low, high, high - low + 1) is low, low + 1, ..., high |
| OpSpan.CheckEquationAnswer | psychopy/opspan/opspan.py:185-192 | the score is 0 or 1, and is 1 exactly for ('j', 'y') and ('f', 'n') |
| OpSpan.OneKeyScores | psychopy/opspan/opspan.py:185-192 | for an answer of "y" or "n" exactly one of the two keys scores; for any other answer neither does |
| OpSpan.EquationIndexAsWritten | psychopy/opspan/opspan.py:195 | randint(n - 1) draws an index below n - 1 |
| OpSpan.LastEquationNeverDrawn | psychopy/opspan/opspan.py:195 | no draw ever selects the last equation |
| OpSpan.EquationIndex | psychopy/opspan/opspan.py:194-199 | the corrected draw is an index into the equation table |
| OpSpan.EveryEquationDrawable | psychopy/opspan/opspan.py:194-199 | every equation of the table is selected by some unit draw |
| OpSpan.MathScore | psychopy/opspan/opspan.py:493-504 | one equation scores 0 or 1, and a timeout scores 0 |
| OpSpan.KeyStep | psychopy/opspan/opspan.py:215-226 | a letter appends exactly ' ' + letter; backspace drops the last two characters, down to empty |
| OpSpan.ReturnEnds | psychopy/opspan/opspan.py:238-239 | return ends the input with the text typed so far |
| OpSpan.BackspaceUndoesLetter | psychopy/opspan/opspan.py:216-226 | a letter followed by backspace restores the previous text |
| OpSpan.BackspaceOnEmpty | psychopy/opspan/opspan.py:226 | backspace on empty text leaves it empty |
| OpSpan.AnswerString | psychopy/opspan/opspan.py:305-307 | the answer built from n letters has 2n characters |
| OpSpan.AnswerStringSnoc | psychopy/opspan/opspan.py:305-307 | each presented letter extends the answer by ' ' + letter |
| OpSpan.AnswerStringInjective | psychopy/opspan/opspan.py:315-316 | two answer strings are equal exactly when their letter sequences are |
| OpSpan.TypingLetters | psychopy/opspan/opspan.py:213-218 | typing letters appends their answer string to the response |
| OpSpan.RecallMatches | psychopy/opspan/opspan.py:305-316 | typing letters then return yields their answer string, which equals the presented answer exactly when the typed letters are the presented ones |
| OpSpan.EntryLength | psychopy/opspan/opspan.py:202-241 | Entry, the response getcharacterinput builds, grows by at most two characters per key |
| OpSpan.EntryKeepsPairs | psychopy/opspan/opspan.py:202-241 | starting from empty text the response stays a sequence of space-letter pairs, since a letter appends ' ' + letter and backspace removes a whole pair |
| OpSpan.GetCharacterInput | psychopy/opspan/opspan.py:202-241 | the loop returns exactly the response text the key events spell, up to the first return |
| OpSpan.PresentLetters | psychopy/opspan/opspan.py:305-307 | presenting the first span letters builds exactly their answer string |
| OpSpan.ShuffledRounds | psychopy/opspan/opspan.py:303 | reshuffling the consonants once per round keeps their number |
| OpSpan.ShuffledRoundsPermutes | psychopy/opspan/opspan.py:303 | the consonant list after any number of rounds is a permutation of the original |
| OpSpan.OrderIn | psychopy/opspan/opspan.py:301-303 | round k shows the order left by rounds 0..k-1 shuffled once more |
| OpSpan.CharacterRound | psychopy/opspan/opspan.py:302-316 | one round reshuffles the consonants and reports whether the typed response equals the presented answer |
| OpSpan.CharacterScore | psychopy/opspan/opspan.py:301-327 | the number of recalled rounds is at most the rounds played |
| OpSpan.CharacterPractice | psychopy/opspan/opspan.py:295-327 | the consonants end reshuffled by every round, and ncorrect is the number of recalled rounds, at most len(spanseq) |
| OpSpan.CorrectRts | psychopy/opspan/opspan.py:360-363 | at most one reaction time is kept per attempt |
| OpSpan.Kept | psychopy/opspan/opspan.py:360-363 | an attempt's reaction time is kept exactly when its answer scores 1 |
| OpSpan.CorrectRtsPrefix | psychopy/opspan/opspan.py:348-363 | the times kept from the first n attempts are a prefix of those kept from all of them, so times are stored in order |
| OpSpan.EquationPractice | psychopy/opspan/opspan.py:345-365 | rts[0..ncorrect) are the times of the correct answers in order; the loop ends after exactly nmathpractice correct answers, the last attempt correct, unless the attempts ran out |
| OpSpan.PracticeAttempt | psychopy/opspan/opspan.py:360-363 | a correct answer stores its time at index ncorrect and increments ncorrect; any other leaves both alone |
| OpSpan.Timeouts | psychopy/opspan/opspan.py:502-504 | nmathtimeout is at most the number of equations, and 0 exactly when every equation was answered |
| OpSpan.Scores | psychopy/opspan/opspan.py:493-504 | mathcorrect has one score per equation of the span |
| OpSpan.ScoresBound | psychopy/opspan/opspan.py:495-504 | the sum of the scores lies between 0 and the number of answered equations |
| OpSpan.PracticeTallyAsWritten | psychopy/opspan/opspan.py:389-432 | the tally as written adds one per matched recall and subtracts the last equation's timeout flag each round, so it lies between -n and n after n rounds |
| OpSpan.PracticeTallyAgreesWithoutTimeouts | psychopy/opspan/opspan.py:407-432 | when no equation timed out the tally as written equals the corrected tally |
| OpSpan.PracticeTallyGoesNegative | psychopy/opspan/opspan.py:407-432 | one failed recall with a late second equation leaves the tally as written at -1 |
| OpSpan.PracticeTally | psychopy/opspan/opspan.py:389-432 | the corrected tally counts the rounds recalled with no equation timed out, between 0 and the rounds played |
| OpSpan.PracticeRound | psychopy/opspan/opspan.py:393-432 | corrected form of the round (second Findings row): the round reshuffles the consonants and counts exactly when recall matched and no equation timed out, where the source adds a match and subtracts the last equation's flag |
| OpSpan.PracticePairs | psychopy/opspan/opspan.py:400-425 | the equation-letter pairs build the answer of the presented letters; in the corrected form (second Findings row) the timeout flag is set exactly when some equation timed out, where the source's `trialincorrect` is overwritten by each equation |
| OpSpan.FullPractice | psychopy/opspan/opspan.py:389-432 | corrected form of the full practice (second Findings row): the consonants end reshuffled by every round, and the tally is PracticeTally, between 0 and 3, where the tally as written (PracticeTallyAsWritten) can fall to -3 |
| OpSpan.SpanOrder | psychopy/opspan/opspan.py:461-462 | spanorder is a permutation of 3..7, so every span lies in 3..7 |
| OpSpan.SpansInRange | psychopy/opspan/opspan.py:461-462 | any permutation of the span sequence holds only spans in 3..7 |
| OpSpan.TaskRow | psychopy/opspan/opspan.py:526-528 | a data row has the five modelled columns |
| OpSpan.TaskRowBounds | psychopy/opspan/opspan.py:526-528 | math accuracy lies in [0, 1] and at most 1 - nmathtimeout / span, nmathtimeout lies in 0..span, and correct is 0 or 1 |
| OpSpan.ExpectedRows | psychopy/opspan/opspan.py:465 | the data matrix has len(spanorder) * nspaniterations = 15 rows |
| OpSpan.EquationsAndLetters | psychopy/opspan/opspan.py:486-509 | mathcorrect holds each equation's score, nmathtimeout counts the timeouts (at most span), and charanswer is the answer of the presented letters |
| OpSpan.ScoreEquation | psychopy/opspan/opspan.py:493-504 | mathcorrect[t] gets the equation's score (0 on a timeout), and the timeout is reported exactly when no key came |
| OpSpan.SpanTrial | psychopy/opspan/opspan.py:472-534 | one trial reshuffles the consonants once and fills data row datarowindex with its expected row, keeping the earlier rows |
| OpSpan.StoreRow | psychopy/opspan/opspan.py:526-531 | the row is written and every earlier row is kept |
| OpSpan.SpanBlock | psychopy/opspan/opspan.py:469-534 | the nspaniterations trials of one span fill the next three rows in order |
| OpSpan.MakeSpanOrder | psychopy/opspan/opspan.py:461-462 | the shuffled span array is SpanOrder of its draws |
| OpSpan.FullTask | psychopy/opspan/opspan.py:461-534 | spanorder is the shuffled span sequence, the consonants are reshuffled once per trial, and every one of the 15 rows, filled in order by datarowindex, holds its trial's expected row |

## Left out

- Drawing, windows, animations, stimulus loading, fixation crosses, feedback messages and `core.wait` pauses are presentation only.
- The inter-trial interval (`iti`, `np.random.exponential`) and the script's inter-stimulus interval only pause.
- Keyboard polling is replaced by inputs. A deadline that passes becomes `None`, and a reaction time is an opaque real.
- `savedata`'s CSV writing, the `subject_id` and `rprob_*` columns, `plotrewardpaths` and the opspan DataFrame/CSV export are file I/O and plotting.
- The `tutorial` flag's fixed numpy seed is left out, because every draw is an input.
- The loops consume a finite sequence of inputs and stop when it runs out. The source would then still be waiting for the participant.
- Python 2 `random.shuffle` is assumed (j = int(random() * (i + 1))). Python 3 draws the partner index with a different routine.
- np.empty's uninitialised cells are modelled as zeros and empty strings. Choices and states are ints rather than numpy floats.
- Operation-span equations are an input table, and each equation is drawn by the corrected `EquationIndex`. Consonants are single characters.
- Malformed resource files are excluded by the requires clauses. The source fails on two of them, and the model does not model those errors:
  - a one-row equation table makes numpy's `randint(0)` raise ValueError at opspan.py:195, so `EquationIndexAsWritten` requires more than one row;
  - a consonant list shorter than 7 raises IndexError at `characters[t]` (opspan.py:306, 419, 508), so the practice and task methods require at least `SpanHigh` consonants.
- Column 5-7 reaction-time statistics (`mathrt`, np.mean, np.std, np.max) are floating-point statistics and are not modelled. The source also leaves `mathrt` slots of timed-out equations unset. The same holds for `equation_rt_mean`, `equation_rt_sd` and `equationduration`.
- The full-practice tally is only displayed, as are the per-span `ntrialscorrect` feedback messages in the full task.
- TwoStepCore.StayTable: pairs `a1[:-1]` with `a1[1:]` by position. At twostepcore.py:388 `np.equal` receives two Series with different index labels; the comparison is positional only in the older pandas the script targets (it still uses `.ix`), while later pandas aligns such ufuncs on the labels.
- TwoStepCore.Trials.Iteration: does not state the fields a1, a2 and s2 after the iteration. The row it appends records the choices and the state.
- TwoStepCore.Trials.Iteration: models the source's second `if self.trial_aborted is False` test inside SecondStage. That test can only pass when the first one did.
- TwoStepCore.Trials.Run: states the block invariant and the aborted column, not every cell of every row. Iteration states the exact row of each iteration.
- TwoStepMini.PlayAndTally: adds the reward to the tally after the trial is stored. The source adds it at line 322, before storing at line 355, and nothing reads the tally in between.
- OpSpan.CharacterPractice: the source's `break` once ncorrect reaches len(spanseq) is the loop guard. That can only happen right after a match, so the behaviour is the same.
- OpSpan.EquationPractice: its key wait has no deadline, so a press is never missing there. The model still accepts a missing press and scores it 0.
- OpSpan.GetCharacterInput: a key sequence that ends without return gives the text typed so far.
- OpSpan.StoreRow: writes all five modelled columns at the end of the trial. The source writes columns 0-1 at the start of the trial and 2-4 at the end, and nothing reads the row in between.
- OpSpan.PracticeRound: models the corrected round of the second Findings row, not lines 393-432 as written. The as-written tally is PracticeTallyAsWritten.
- OpSpan.PracticePairs: its flag is raised by any timed-out equation and never reset. The source's `trialincorrect` is reassigned by every equation (lines 408 and 414), so only the last equation decides it; PracticeTallyAsWritten models that.
- OpSpan.FullPractice: tallies the corrected rounds of the second Findings row. The tally lines 389-432 compute as written is PracticeTallyAsWritten, which lies in -3..3.
- OpSpan.SpanBlock: does not state the per-span `ntrialscorrect` feedback count, which is only displayed.

## Findings

| source | as written | input that shows it | evidently intended | confidence | as-written member | corrected member |
|---|---|---|---|---|---|---|
| psychopy/opspan/opspan.py:195 | the equation index is drawn by randint of the table size minus one, so from 0..n-2 | any table of n > 1 equations: index n - 1 is never drawn | draw from all n equations, randint(n) | not executed | OpSpan.LastEquationNeverDrawn | OpSpan.EveryEquationDrawable |
| psychopy/opspan/opspan.py:407-432 | `trialincorrect` is reset by every equation, and one round subtracts it from the tally even when it adds nothing | one round with a failed recall, the first equation answered and the second timed out: the tally becomes -1 | count a round when recall matched and no equation in it timed out, a count in 0..3 | not executed | OpSpan.PracticeTallyAsWritten, OpSpan.PracticeTallyGoesNegative | OpSpan.FullPractice |
