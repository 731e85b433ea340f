/** The recovery-phrase check: challenge picking and the show / verify / done dialog. */
module MnemonicVerify {
  import opened Sequences
  import opened Shuffle

  const VERIFY_COUNT: nat := 3
  const DISTRACTORS: nat := 3

  datatype Challenge = Challenge(index: nat, answer: string, choices: seq<string>)

  /** First occurrences, in order. */
  function Dedup(words: seq<string>): (d: seq<string>)
    ensures Distinct(d)
    ensures forall w :: w in d <==> w in words
  {
    if words == [] then []
    else
      var init, last := words[..|words| - 1], words[|words| - 1];
      var d := Dedup(init);
      assert words == init + [last];
      if last in d then d else d + [last]
  }

  function Without(words: seq<string>, answer: string): (d: seq<string>)
    ensures forall w :: w in d <==> w in words && w != answer
    ensures answer !in words ==> d == words
  {
    if words == [] then []
    else
      var init, last := words[..|words| - 1], words[|words| - 1];
      assert words == init + [last];
      if last == answer then Without(init, answer) else Without(init, answer) + [last]
  }

  lemma {:induction false} WithoutOne(words: seq<string>, answer: string)
    requires Distinct(words)
    ensures Distinct(Without(words, answer))
    ensures answer in words ==> |Without(words, answer)| == |words| - 1
  {
    if words != [] {
      var init, last := words[..|words| - 1], words[|words| - 1];
      assert words == init + [last];
      WithoutOne(init, answer);
      assert last !in init;
    }
  }

  ghost predicate Ascending(s: seq<nat>) {
    forall i, j :: 0 <= i < j < |s| ==> s[i] <= s[j]
  }

  function InsertSorted(x: nat, sorted: seq<nat>): seq<nat> {
    if sorted == [] then [x]
    else if x <= sorted[0] then [x] + sorted
    else [sorted[0]] + InsertSorted(x, sorted[1..])
  }

  lemma {:induction false} InsertSortedAdds(x: nat, sorted: seq<nat>)
    ensures multiset(InsertSorted(x, sorted)) == multiset(sorted) + multiset{x}
    ensures forall y :: y in InsertSorted(x, sorted) <==> y == x || y in sorted
  {
    if sorted != [] && x > sorted[0] {
      InsertSortedAdds(x, sorted[1..]);
    }
    if sorted != [] {
      assert sorted == [sorted[0]] + sorted[1..];
    }
  }

  lemma {:induction false} InsertSortedAscends(x: nat, sorted: seq<nat>)
    requires Ascending(sorted)
    ensures Ascending(InsertSorted(x, sorted))
  {
    if sorted != [] && x > sorted[0] {
      InsertSortedAscends(x, sorted[1..]);
      InsertSortedAdds(x, sorted[1..]);
      assert forall y :: y in sorted[1..] ==> sorted[0] <= y;
      PrependLeast(sorted[0], InsertSorted(x, sorted[1..]));
    }
  }

  lemma PrependLeast(x: nat, s: seq<nat>)
    requires Ascending(s) && forall y :: y in s ==> x <= y
    ensures Ascending([x] + s)
  {
    var t := [x] + s;
    forall i, j | 0 <= i < j < |t| ensures t[i] <= t[j] {
      assert t[j] == s[j - 1] && s[j - 1] in s;
    }
  }

  function SortAscending(s: seq<nat>): (t: seq<nat>) {
    if s == [] then [] else InsertSorted(s[0], SortAscending(s[1..]))
  }

  lemma {:induction false} SortAscendingSorts(s: seq<nat>)
    ensures Ascending(SortAscending(s))
    ensures multiset(SortAscending(s)) == multiset(s)
  {
    if s != [] {
      SortAscendingSorts(s[1..]);
      InsertSortedAscends(s[0], SortAscending(s[1..]));
      InsertSortedAdds(s[0], SortAscending(s[1..]));
      assert s == [s[0]] + s[1..];
      assert SortAscending(s) == InsertSorted(s[0], SortAscending(s[1..]));
    } else {
      assert SortAscending(s) == [];
    }
  }

  /** The randomness of one challenge round: draw number `k` made of `n` choices. */
  ghost predicate Random(draw: (nat, nat) -> seq<nat>) {
    forall k, n :: Choices(draw(k, n), n)
  }

  /** What makes a multiple-choice question sound. */
  ghost predicate Sound(words: seq<string>, ch: Challenge) {
    && ch.index < |words| && ch.answer == words[ch.index]
    && Distinct(ch.choices)
    && multiset(ch.choices)[ch.answer] == 1
    && (forall w :: w in ch.choices ==> w in words)
    && |ch.choices| == 1 + Least(3, |Dedup(words)| - 1)
  }

  /** The phrase's other words, each once. */
  function Pool(words: seq<string>, answer: string): seq<string> {
    Without(Dedup(words), answer)
  }

  /** The wrong choices that swaps `c` of the pool bring to its front. */
  function Distractors(words: seq<string>, answer: string, c: seq<nat>): seq<string>
    requires Choices(c, |Pool(words, answer)|)
  {
    Shuffled(Pool(words, answer), c)[..Least(DISTRACTORS, |Pool(words, answer)|)]
  }

  /** The question about one position, for the swaps of its pool and of its choices. */
  function Question(words: seq<string>, index: nat, c: seq<nat>, c': seq<nat>): Challenge
    requires index < |words| && Choices(c, |Pool(words, words[index])|)
    requires Choices(c', 1 + |Distractors(words, words[index], c)|)
  {
    Challenge(index, words[index], Shuffled([words[index]] + Distractors(words, words[index], c), c'))
  }

  function UpTo(n: nat): (positions: seq<nat>)
    ensures |positions| == n && forall i :: 0 <= i < n ==> positions[i] == i
  {
    seq(n, i => i)
  }

  lemma UpToHas(n: nat, i: nat)
    ensures Distinct(UpTo(n)) && (i in UpTo(n) <==> i < n)
  {
    if i < n {
      assert UpTo(n)[i] == i;
    }
  }

  /** The positions that swaps `c` bring to the front, in ascending order. */
  function PickedIndices(n: nat, c: seq<nat>): seq<nat>
    requires Choices(c, n)
  {
    SortAscending(Shuffled(UpTo(n), c)[..Least(VERIFY_COUNT, n)])
  }

  ghost predicate Rising(s: seq<nat>) {
    forall i, j :: 0 <= i < j < |s| ==> s[i] < s[j]
  }

  /** One question about position `index`; it uses draw `k` for the wrong choices and the next for their order. */
  method PickOne(words: seq<string>, index: nat, draw: (nat, nat) -> seq<nat>, k: nat) returns (ch: Challenge)
    requires index < |words| && Random(draw)
    ensures Sound(words, ch) && ch.index == index
    ensures Drawn(words, ch, draw, k)
  {
    hide Without, Shuffled, Choices, Sound, Random;
    var answer := words[index];
    var pool := Without(Dedup(words), answer);
    WithoutOne(Dedup(words), answer);
    hide Dedup;
    RandomChoices(draw, k, |pool|);
    var shuffledPool := ShuffleInPlace(pool, draw(k, |pool|));
    SameElementsStayDistinct(pool, shuffledPool);
    var distractors := shuffledPool[..Least(DISTRACTORS, |shuffledPool|)];
    var all := [answer] + distractors;
    RandomChoices(draw, k + 1, |all|);
    var choices := ShuffleInPlace(all, draw(k + 1, |all|));
    ch := Challenge(index, answer, choices);
    SoundQuestion(words, ch, distractors);
  }

  /** The question is the one that draws `k` and `k + 1` make. */
  ghost predicate Drawn(words: seq<string>, ch: Challenge, draw: (nat, nat) -> seq<nat>, k: nat)
    requires Random(draw)
  {
    && ch.index < |words|
    && var c := draw(k, |Pool(words, words[ch.index])|);
       RandomChoices(draw, k, |Pool(words, words[ch.index])|);
       var c' := draw(k + 1, 1 + |Distractors(words, words[ch.index], c)|);
       RandomChoices(draw, k + 1, 1 + |Distractors(words, words[ch.index], c)|);
       ch == Question(words, ch.index, c, c')
  }

  /** An answer shuffled among distinct other words of the phrase makes a sound question. */
  lemma SoundQuestion(words: seq<string>, ch: Challenge, distractors: seq<string>)
    requires ch.index < |words| && ch.answer == words[ch.index]
    requires Distinct(distractors) && forall w :: w in distractors ==> w in words && w != ch.answer
    requires |distractors| == Least(DISTRACTORS, |Dedup(words)| - 1) && |Dedup(words)| >= 1
    requires multiset(ch.choices) == multiset([ch.answer] + distractors)
    ensures Sound(words, ch)
  {
    var all := [ch.answer] + distractors;
    forall i, j | 0 <= i < j < |all| ensures all[i] != all[j] {
      assert all[j] == distractors[j - 1] && all[j] in distractors;
    }
    SameElementsStayDistinct(all, ch.choices);
    OneOccurrence(ch.choices, ch.answer);
    assert ch.answer == all[0] && ch.answer in ch.choices && ch.answer in multiset(ch.choices);
  }

  lemma RandomChoices(draw: (nat, nat) -> seq<nat>, k: nat, n: nat)
    requires Random(draw)
    ensures Choices(draw(k, n), n)
  {
  }

  /** The positions to ask about: the first few of a shuffle, in ascending order. */
  method PickIndices(n: nat, c: seq<nat>) returns (indices: seq<nat>)
    requires Choices(c, n)
    ensures |indices| == Least(3, n)
    ensures Rising(indices) && forall i :: 0 <= i < |indices| ==> indices[i] < n
    ensures indices == PickedIndices(n, c)
  {
    var positions := UpTo(n);
    UpToHas(n, n);
    var shuffled := ShuffleInPlace(positions, c);
    SameElementsStayDistinct(positions, shuffled);
    var taken := shuffled[..Least(VERIFY_COUNT, n)];
    indices := SortAscending(taken);
    SortAscendingSorts(taken);
    SameElementsStayDistinct(taken, indices);
    forall i | 0 <= i < |indices| ensures indices[i] < n {
      assert indices[i] in taken && indices[i] in shuffled && indices[i] in positions;
      UpToHas(n, indices[i]);
    }
  }

  /** The round that the draws make: draw 0 for the positions, two draws for each question. */
  ghost predicate IsRound(words: seq<string>, chs: seq<Challenge>, draw: (nat, nat) -> seq<nat>)
    requires Random(draw)
  {
    RandomChoices(draw, 0, |words|);
    var indices := PickedIndices(|words|, draw(0, |words|));
    && |chs| == |indices|
    && forall i :: 0 <= i < |chs| ==> chs[i].index == indices[i] && Drawn(words, chs[i], draw, 2 * i + 1)
  }

  /** Up to three questions about distinct positions, in ascending order, for any word list. */
  method PickChallenges(words: seq<string>, draw: (nat, nat) -> seq<nat>) returns (chs: seq<Challenge>)
    requires Random(draw)
    ensures |chs| == Least(3, |words|)
    ensures forall i, j :: 0 <= i < j < |chs| ==> chs[i].index < chs[j].index
    ensures forall i :: 0 <= i < |chs| ==> Sound(words, chs[i])
    ensures IsRound(words, chs, draw)
  {
    RandomChoices(draw, 0, |words|);
    hide *;
    var indices := PickIndices(|words|, draw(0, |words|));
    chs := AskEach(words, indices, draw);
    RoundIsDone(words, chs, indices, draw);
  }

  method AskEach(words: seq<string>, indices: seq<nat>, draw: (nat, nat) -> seq<nat>) returns (chs: seq<Challenge>)
    requires Random(draw) && forall i :: 0 <= i < |indices| ==> indices[i] < |words|
    ensures |chs| == |indices| && Asked(words, chs, indices, draw)
  {
    hide *;
    chs := [];
    RoundStarts(words, indices, draw);
    for k := 0 to |indices|
      invariant |chs| == k && Asked(words, chs, indices, draw)
    {
      var ch := PickOne(words, indices[k], draw, 2 * k + 1);
      RoundGoesOn(words, chs, indices, draw, ch);
      chs := chs + [ch];
    }
  }

  /** The first questions of a round, asked at the picked positions. */
  ghost predicate Asked(words: seq<string>, chs: seq<Challenge>, indices: seq<nat>, draw: (nat, nat) -> seq<nat>)
    requires Random(draw)
  {
    |chs| <= |indices| &&
    forall i :: 0 <= i < |chs| ==>
      Sound(words, chs[i]) && chs[i].index == indices[i] && Drawn(words, chs[i], draw, 2 * i + 1)
  }

  lemma RoundStarts(words: seq<string>, indices: seq<nat>, draw: (nat, nat) -> seq<nat>)
    requires Random(draw)
    ensures Asked(words, [], indices, draw)
  {
  }

  lemma RoundGoesOn(words: seq<string>, chs: seq<Challenge>, indices: seq<nat>, draw: (nat, nat) -> seq<nat>,
                    ch: Challenge)
    requires Random(draw) && Asked(words, chs, indices, draw) && |chs| < |indices|
    requires Sound(words, ch) && ch.index == indices[|chs|] && Drawn(words, ch, draw, 2 * |chs| + 1)
    ensures Asked(words, chs + [ch], indices, draw)
  {
    hide Sound, Drawn, Random;
  }

  lemma RoundIsDone(words: seq<string>, chs: seq<Challenge>, indices: seq<nat>, draw: (nat, nat) -> seq<nat>)
    requires Random(draw) && Choices(draw(0, |words|), |words|)
    requires indices == PickedIndices(|words|, draw(0, |words|))
    requires |chs| == |indices| && Asked(words, chs, indices, draw) && Rising(indices)
    ensures IsRound(words, chs, draw)
    ensures forall i, j :: 0 <= i < j < |chs| ==> chs[i].index < chs[j].index
    ensures forall i :: 0 <= i < |chs| ==> Sound(words, chs[i])
  {
    hide Sound, Drawn, PickedIndices, Random;
  }

  // ---- Every sound round can come up ----

  lemma {:induction false} SortOfAscending(s: seq<nat>)
    requires Ascending(s)
    ensures SortAscending(s) == s
  {
    if s != [] {
      SortOfAscending(s[1..]);
      assert s == [s[0]] + s[1..];
    }
  }

  /** Any positions can be the ones asked about. */
  lemma AnyPositionsCanBeAsked(n: nat, wanted: seq<nat>) returns (c: seq<nat>)
    requires Rising(wanted) && |wanted| == Least(VERIFY_COUNT, n) && forall i :: 0 <= i < |wanted| ==> wanted[i] < n
    ensures Choices(c, n) && PickedIndices(n, c) == wanted
  {
    var all := UpTo(n);
    UpToHas(n, n);
    forall x | x in wanted ensures x in all {
      UpToHas(n, x);
    }
    MovedToFront(all, wanted);
    c := ShuffleSurjective(all, wanted + Minus(all, wanted));
    assert Shuffled(all, c)[..|wanted|] == wanted;
    SortOfAscending(wanted);
  }

  /** What a sound question says about its wrong choices. */
  lemma WrongChoices(words: seq<string>, ch: Challenge)
    requires Sound(words, ch)
    ensures var pool, wrong := Pool(words, ch.answer), Without(ch.choices, ch.answer);
      && Distinct(pool) && Distinct(wrong) && (forall w :: w in wrong ==> w in pool)
      && |wrong| == Least(DISTRACTORS, |pool|)
      && multiset([ch.answer] + wrong) == multiset(ch.choices)
  {
    var wrong := Without(ch.choices, ch.answer);
    WithoutOne(Dedup(words), ch.answer);
    WithoutOne(ch.choices, ch.answer);
    assert ch.answer in multiset(ch.choices) && ch.answer in words[..];
    var all := [ch.answer] + wrong;
    forall i, j | 0 <= i < j < |all| ensures all[i] != all[j] {
      assert all[j] == wrong[j - 1] && all[j] in wrong;
    }
    forall w ensures w in all <==> w in ch.choices {
      assert w in all <==> w == ch.answer || w in wrong;
    }
    SameElementsRearrange(all, ch.choices);
  }

  /** Any sound question can come up: any wrong words, in any order, with the answer anywhere. */
  lemma AnySoundQuestionCanBeAsked(words: seq<string>, ch: Challenge) returns (c: seq<nat>, c': seq<nat>)
    requires Sound(words, ch)
    ensures Choices(c, |Pool(words, words[ch.index])|)
    ensures Choices(c', 1 + |Distractors(words, words[ch.index], c)|)
    ensures Question(words, ch.index, c, c') == ch
  {
    var pool, wrong := Pool(words, ch.answer), Without(ch.choices, ch.answer);
    WrongChoices(words, ch);
    hide Sound, Pool, Without, Choices;
    MovedToFront(pool, wrong);
    c := ShuffleSurjective(pool, wrong + Minus(pool, wrong));
    assert Distractors(words, ch.answer, c) == wrong;
    c' := ShuffleSurjective([ch.answer] + wrong, ch.choices);
  }

  /** These swaps make this question. */
  ghost predicate Makes(words: seq<string>, ch: Challenge, c: seq<nat>, c': seq<nat>) {
    && ch.index < |words| && Choices(c, |Pool(words, words[ch.index])|)
    && Choices(c', 1 + |Distractors(words, words[ch.index], c)|)
    && Question(words, ch.index, c, c') == ch
  }

  /** The swaps behind one question: of its pool, and of its choices. */
  datatype Swaps = Swaps(pool: seq<nat>, order: seq<nat>)

  ghost predicate AllSound(words: seq<string>, chs: seq<Challenge>) {
    forall i :: 0 <= i < |chs| ==> Sound(words, chs[i])
  }

  /** Swaps for the first questions. */
  ghost predicate MakesFirst(words: seq<string>, chs: seq<Challenge>, cs: seq<Swaps>) {
    |cs| <= |chs| && forall i :: 0 <= i < |cs| ==> Makes(words, chs[i], cs[i].pool, cs[i].order)
  }

  lemma MakesOneMore(words: seq<string>, chs: seq<Challenge>, cs: seq<Swaps>) returns (more: seq<Swaps>)
    requires AllSound(words, chs) && MakesFirst(words, chs, cs) && |cs| < |chs|
    ensures MakesFirst(words, chs, more) && |more| == |cs| + 1
  {
    assert Sound(words, chs[|cs|]);
    hide Sound, Makes;
    var c, c' := SwapsFor(words, chs[|cs|]);
    more := cs + [Swaps(c, c')];
  }

  lemma {:induction false} SwapsForFirst(words: seq<string>, chs: seq<Challenge>, n: nat) returns (cs: seq<Swaps>)
    requires AllSound(words, chs) && n <= |chs|
    ensures MakesFirst(words, chs, cs) && |cs| == n
  {
    if n == 0 {
      cs := [];
    } else {
      hide AllSound, MakesFirst;
      cs := SwapsForFirst(words, chs, n - 1);
      cs := MakesOneMore(words, chs, cs);
    }
  }

  lemma SwapsFor(words: seq<string>, ch: Challenge) returns (c: seq<nat>, c': seq<nat>)
    requires Sound(words, ch)
    ensures Makes(words, ch, c, c')
  {
    SoundInPhrase(words, ch);
    hide Sound, Pool, Distractors, Choices, Question;
    c, c' := AnySoundQuestionCanBeAsked(words, ch);
  }

  lemma SoundInPhrase(words: seq<string>, ch: Challenge)
    requires Sound(words, ch)
    ensures ch.index < |words|
  {
  }

  /** Draw `k`: `c` first and then the given swaps for each question, wherever they fit. */
  function DrawAt(c: seq<nat>, cs: seq<Swaps>, k: nat, n: nat): (drawn: seq<nat>)
    ensures Choices(drawn, n)
  {
    var wanted :=
      if k == 0 then c
      else if (k - 1) / 2 >= |cs| then []
      else if k % 2 == 1 then cs[(k - 1) / 2].pool
      else cs[(k - 1) / 2].order;
    if |wanted| == n && forall j :: 0 <= j < n ==> wanted[j] <= j then wanted else seq(n, _ => 0)
  }

  function DrawOf(c: seq<nat>, cs: seq<Swaps>): (nat, nat) -> seq<nat> {
    (k: nat, n: nat) => DrawAt(c, cs, k, n)
  }

  lemma DrawOfIsRandom(c: seq<nat>, cs: seq<Swaps>)
    ensures Random(DrawOf(c, cs))
  {
    hide DrawAt, Choices;
  }

  lemma DrawsQuestion(c: seq<nat>, cs: seq<Swaps>, i: nat)
    requires i < |cs|
    ensures Choices(cs[i].pool, |cs[i].pool|) ==> DrawAt(c, cs, 2 * i + 1, |cs[i].pool|) == cs[i].pool
    ensures Choices(cs[i].order, |cs[i].order|) ==> DrawAt(c, cs, 2 * i + 2, |cs[i].order|) == cs[i].order
  {
  }

  lemma MadeIsDrawn(words: seq<string>, ch: Challenge, c: seq<nat>, cs: seq<Swaps>, i: nat)
    requires i < |cs| && Makes(words, ch, cs[i].pool, cs[i].order) && Random(DrawOf(c, cs))
    ensures Drawn(words, ch, DrawOf(c, cs), 2 * i + 1)
  {
    var first, second := cs[i].pool, cs[i].order;
    ChoicesLength(first, |Pool(words, words[ch.index])|);
    ChoicesLength(second, 1 + |Distractors(words, words[ch.index], first)|);
    hide DrawAt, Pool, Distractors, Question, Random, Choices;
    DrawsQuestion(c, cs, i);
    assert DrawOf(c, cs)(2 * i + 1, |Pool(words, words[ch.index])|) == first;
  }

  lemma ChoicesLength(c: seq<nat>, n: nat)
    requires Choices(c, n)
    ensures |c| == n
  {
  }

  lemma FirstDraw(c: seq<nat>, cs: seq<Swaps>)
    ensures Choices(c, |c|) ==> DrawAt(c, cs, 0, |c|) == c
  {
  }

  /** The rounds that can come up are exactly the sound ones: each is made by some randomness. */
  lemma AnySoundRoundCanComeUp(words: seq<string>, chs: seq<Challenge>) returns (draw: (nat, nat) -> seq<nat>)
    requires |chs| == Least(3, |words|)
    requires forall i, j :: 0 <= i < j < |chs| ==> chs[i].index < chs[j].index
    requires AllSound(words, chs)
    ensures Random(draw) && IsRound(words, chs, draw)
  {
    var wanted := seq(|chs|, i requires 0 <= i < |chs| => chs[i].index);
    forall i | 0 <= i < |chs| ensures wanted[i] < |words| {
      SoundInPhrase(words, chs[i]);
    }
    hide Sound, Makes, Drawn, PickedIndices, Random, DrawAt;
    var c := AnyPositionsCanBeAsked(|words|, wanted);
    var cs := SwapsForFirst(words, chs, |chs|);
    draw := DrawOf(c, cs);
    DrawOfIsRandom(c, cs);
    FirstDraw(c, cs);
    forall i | 0 <= i < |chs| ensures Drawn(words, chs[i], draw, 2 * i + 1) {
      MadeIsDrawn(words, chs[i], c, cs, i);
    }
  }

  // ---- The dialog ----

  datatype Stage = Show | Verify | Done

  datatype Dialog = Dialog(stage: Stage, challenges: seq<Challenge>, current: nat, error: bool)

  datatype Event =
    | Start(asked: seq<Challenge>)
    | Back
    | Pick(word: string)
    | Finish
    | Cancel

  const INITIAL := Dialog(Show, [], 0, false)

  /** Which controls the dialog renders on each screen; the hardware back button always cancels. */
  predicate Available(d: Dialog, e: Event) {
    match e
    case Start(_) => d.stage == Show
    case Back => d.stage == Verify || d.stage == Done
    case Pick(_) => d.stage == Verify && d.current < |d.challenges|
    case Finish => d.stage == Done
    case Cancel => true
  }

  function Step(d: Dialog, e: Event): Dialog {
    match e
    case Start(asked) => Dialog(Verify, asked, 0, false)
    case Back => d.(stage := Show, error := false)
    case Pick(word) =>
      if d.current >= |d.challenges| then d
      else if word != d.challenges[d.current].answer then d.(error := true)
      else if d.current + 1 >= |d.challenges| then d.(stage := Done, error := false)
      else d.(current := d.current + 1, error := false)
    case Finish => INITIAL
    case Cancel => INITIAL
  }

  function Run(d: Dialog, events: seq<Event>): Dialog {
    if events == [] then d else Step(Run(d, events[..|events| - 1]), events[|events| - 1])
  }

  ghost predicate Possible(events: seq<Event>) {
    forall i :: 0 <= i < |events| ==> Available(Run(INITIAL, events[..i]), events[i])
  }

  function Answers(chs: seq<Challenge>): (a: seq<string>)
    ensures |a| == |chs|
  {
    seq(|chs|, i requires 0 <= i < |chs| => chs[i].answer)
  }

  /** `wanted` can be read off `words`, in order, skipping the wrong picks between. */
  ghost predicate Subsequence(wanted: seq<string>, words: seq<string>) {
    wanted == [] ||
    (words != [] &&
     ((wanted[|wanted| - 1] == words[|words| - 1]
       && Subsequence(wanted[..|wanted| - 1], words[..|words| - 1]))
      || Subsequence(wanted, words[..|words| - 1])))
  }

  lemma {:induction false} SubsequencePrefix(wanted: seq<string>, words: seq<string>)
    requires wanted != [] && Subsequence(wanted, words)
    ensures Subsequence(wanted[..|wanted| - 1], words[..|words| - 1])
    ensures words != []
  {
    if !(wanted[|wanted| - 1] == words[|words| - 1] && Subsequence(wanted[..|wanted| - 1], words[..|words| - 1])) {
      SubsequencePrefix(wanted, words[..|words| - 1]);
      SubsequenceMore(wanted[..|wanted| - 1], words[..|words| - 1]);
    }
  }

  lemma {:induction false} SubsequenceShorter(wanted: seq<string>, words: seq<string>, k: nat)
    requires k <= |wanted| && Subsequence(wanted, words)
    ensures Subsequence(wanted[..k], words)
    decreases |wanted|
  {
    if k == |wanted| {
      assert wanted[..k] == wanted;
    } else {
      SubsequencePrefix(wanted, words);
      SubsequenceMore(wanted[..|wanted| - 1], words);
      SubsequenceShorter(wanted[..|wanted| - 1], words, k);
      assert wanted[..|wanted| - 1][..k] == wanted[..k];
    }
  }

  lemma SubsequenceMore(wanted: seq<string>, words: seq<string>)
    requires words != [] && Subsequence(wanted, words[..|words| - 1])
    ensures Subsequence(wanted, words)
  {
  }

  /** The words picked by a run of picks. */
  function Picked(events: seq<Event>): (words: seq<string>)
    ensures |words| == |events|
  {
    seq(|events|, i requires 0 <= i < |events| => if events[i].Pick? then events[i].word else "")
  }

  ghost predicate AllPicks(events: seq<Event>) {
    forall i :: 0 <= i < |events| ==> events[i].Pick?
  }

  /** Question `k` is the first one whose answer has not been picked, reading answers in order. */
  ghost predicate AtQuestion(answers: seq<string>, k: nat, words: seq<string>) {
    k < |answers| && Subsequence(answers[..k], words) && !Subsequence(answers[..k + 1], words)
  }

  /** The next pick moves on exactly when it is the open question's answer. */
  lemma NextPick(answers: seq<string>, k: nat, words: seq<string>, word: string)
    requires AtQuestion(answers, k, words)
    ensures word != answers[k] ==> AtQuestion(answers, k, words + [word])
    ensures word == answers[k] && k + 1 < |answers| ==> AtQuestion(answers, k + 1, words + [word])
    ensures word == answers[k] && k + 1 == |answers| ==> Subsequence(answers, words + [word])
  {
    hide Subsequence;
    assert answers[..k + 1] == answers[..k] + [answers[k]];
    PickStep(answers[..k], answers[k], word, words);
    if k + 1 < |answers| {
      NotYetTwo(answers, k, word, words);
    } else {
      assert answers[..k + 1] == answers;
    }
  }

  lemma OpenQuestionMeansNotAll(answers: seq<string>, k: nat, words: seq<string>)
    requires AtQuestion(answers, k, words)
    ensures !Subsequence(answers, words)
  {
    if Subsequence(answers, words) {
      SubsequenceShorter(answers, words, k + 1);
    }
  }

  /** After a start, a run of picks stands at the first question whose answer is still missing. */
  lemma {:induction false} PicksTrackAnswers(d: Dialog, picks: seq<Event>)
    requires d.stage == Verify && d.current == 0 && d.challenges != []
    requires AllPicks(picks)
    requires forall i :: 0 <= i < |picks| ==> Run(d, picks[..i]).stage == Verify
    ensures Run(d, picks).challenges == d.challenges && Run(d, picks).stage != Show
    ensures Run(d, picks).stage == Verify ==>
      AtQuestion(Answers(d.challenges), Run(d, picks).current, Picked(picks))
    ensures Run(d, picks).stage == Done ==> Subsequence(Answers(d.challenges), Picked(picks))
  {
    var all := Answers(d.challenges);
    if picks != [] {
      var init, word := picks[..|picks| - 1], picks[|picks| - 1].word;
      forall i | 0 <= i < |init| ensures Run(d, init[..i]).stage == Verify {
        assert init[..i] == picks[..i];
      }
      PicksTrackAnswers(d, init);
      var before := Run(d, init);
      assert before.stage == Verify && Run(d, picks) == Step(before, picks[|picks| - 1]);
      hide Run, Subsequence, AtQuestion;
      AtQuestionInRange(all, before.current, Picked(init));
      AnswerAt(d.challenges, before.current);
      NextPick(all, before.current, Picked(init), word);
      assert Picked(picks) == Picked(init) + [word];
    } else {
      assert all[..0] == [] && Picked(picks) == [];
    }
  }

  lemma AtQuestionInRange(answers: seq<string>, k: nat, words: seq<string>)
    requires AtQuestion(answers, k, words)
    ensures k < |answers|
  {
  }

  lemma AnswerAt(chs: seq<Challenge>, k: nat)
    requires k < |chs|
    ensures Answers(chs)[k] == chs[k].answer
  {
  }

  /** The error shows exactly while the last thing done was a wrong pick. */
  lemma ErrorIffLastPickWrong(events: seq<Event>)
    requires Possible(events)
    ensures Run(INITIAL, events).error <==>
      events != [] && events[|events| - 1].Pick?
      && var before := Run(INITIAL, events[..|events| - 1]);
         before.current < |before.challenges|
         && events[|events| - 1].word != before.challenges[before.current].answer
  {
    if events != [] {
      assert Available(Run(INITIAL, events[..|events| - 1]), events[|events| - 1]);
    }
  }

  /** One more pick completes the next answer exactly when it is that answer. */
  lemma PickStep(done: seq<string>, next: string, word: string, words: seq<string>)
    requires Subsequence(done, words) && !Subsequence(done + [next], words)
    ensures Subsequence(done, words + [word])
    ensures Subsequence(done + [next], words + [word]) <==> word == next
  {
    var more := words + [word];
    assert more[..|more| - 1] == words;
    assert (done + [next])[..|done + [next]| - 1] == done;
  }

  lemma NotYetTwo(all: seq<string>, k: nat, word: string, words: seq<string>)
    requires k + 1 < |all| && !Subsequence(all[..k + 1], words)
    ensures !Subsequence(all[..k + 2], words + [word])
  {
    assert all[..k + 2][..k + 1] == all[..k + 1];
    assert (words + [word])[..|words|] == words;
    if Subsequence(all[..k + 2], words + [word]) {
      SubsequencePrefix(all[..k + 2], words + [word]);
    }
  }

  /** By event `end`, every question of the start at `start` has been answered, in order. */
  ghost predicate AnsweredBy(events: seq<Event>, start: nat, end: nat)
    requires start < |events| && events[start].Start?
  {
    start < end <= |events| && Subsequence(Answers(events[start].asked), Picked(events[start + 1..end]))
  }

  /**
   In every possible run that ends on the done screen, the last start is followed by picks only,
   all its answers were picked in order, and the last pick is the one that completed them.
   */
  lemma DoneOnlyAfterAllAnswers(events: seq<Event>) returns (start: nat)
    requires Possible(events) && Run(INITIAL, events).stage == Done
    ensures start < |events| && events[start].Start? && AllPicks(events[start + 1..])
    ensures AnsweredBy(events, start, |events|)
    ensures forall end: nat :: end < |events| ==> !AnsweredBy(events, start, end)
  {
    start := LastStart(events);
    assert events[start + 1..|events|] == events[start + 1..] && events[..|events|] == events;
    SinceStart(events, start, |events|);
    hide Run, AnsweredBy, Possible;
    forall end: nat | end < |events| ensures !AnsweredBy(events, start, end) {
      if start < end {
        SinceStart(events, start, end);
        StillVerifying(events, start, end);
      } else {
        AnsweredLater(events, start, end);
      }
    }
  }

  lemma AnsweredLater(events: seq<Event>, start: nat, end: nat)
    requires start < |events| && events[start].Start?
    ensures AnsweredBy(events, start, end) ==> start < end
  {
  }

  /** A pick is only possible while a question is open. */
  lemma StillVerifying(events: seq<Event>, start: nat, end: nat)
    requires Possible(events) && start < end < |events| && AllPicks(events[start + 1..])
    ensures Run(INITIAL, events[..end]).stage == Verify
    ensures Run(INITIAL, events[..end]).challenges != []
  {
    assert Available(Run(INITIAL, events[..end]), events[end]);
    assert events[end] == events[start + 1..][end - start - 1];
  }

  /** Between a start and the end of a run of picks, the dialog is done exactly once all is answered. */
  lemma SinceStart(events: seq<Event>, start: nat, end: nat)
    requires Possible(events) && start < end <= |events| && events[start].Start? && AllPicks(events[start + 1..])
    requires Run(INITIAL, events).stage == Done
    ensures Run(INITIAL, events[..end]).stage == Done <==> AnsweredBy(events, start, end)
  {
    hide Run, Subsequence, AtQuestion, Answers, Possible;
    var d, picks := Dialog(Verify, events[start].asked, 0, false), events[start + 1..end];
    VerifyingThroughout(events, start, end);
    PicksOnly(events, start, end);
    AskedSomething(events, start);
    PicksTrackAnswers(d, picks);
    if Run(d, picks).stage == Verify {
      OpenQuestionMeansNotAll(Answers(d.challenges), Run(d, picks).current, Picked(picks));
    }
  }

  lemma VerifyingThroughout(events: seq<Event>, start: nat, end: nat)
    requires Possible(events) && start < end <= |events| && events[start].Start? && AllPicks(events[start + 1..])
    ensures var d, picks := Dialog(Verify, events[start].asked, 0, false), events[start + 1..end];
      && Run(INITIAL, events[..end]) == Run(d, picks)
      && forall i :: 0 <= i < |picks| ==> Run(d, picks[..i]).stage == Verify
  {
    hide Run, Possible;
    var d, picks := Dialog(Verify, events[start].asked, 0, false), events[start + 1..end];
    assert start + 1 + |picks| == end;
    RunSinceStart(events, start, |picks|);
    forall i | 0 <= i < |picks| ensures Run(d, picks[..i]).stage == Verify {
      StillVerifying(events, start, start + 1 + i);
      RunSinceStart(events, start, i);
      assert picks[..i] == events[start + 1..start + 1 + i];
    }
  }

  /** A round without questions can never be completed. */
  lemma AskedSomething(events: seq<Event>, start: nat)
    requires Possible(events) && start < |events| && events[start].Start? && AllPicks(events[start + 1..])
    requires Run(INITIAL, events).stage == Done
    ensures events[start].asked != []
  {
    assert events[..|events|] == events;
    RunSinceStart(events, start, 0);
    if start + 1 < |events| {
      StillVerifying(events, start, start + 1);
    }
  }

  lemma PicksOnly(events: seq<Event>, start: nat, end: nat)
    requires start < end <= |events| && AllPicks(events[start + 1..])
    ensures AllPicks(events[start + 1..end])
  {
    var picks := events[start + 1..end];
    forall i | 0 <= i < |picks| ensures picks[i].Pick? {
      assert picks[i] == events[start + 1..][i];
    }
  }

  lemma OneMorePick(events: seq<Event>, start: nat)
    requires start + 1 < |events| && AllPicks(events[..|events| - 1][start + 1..]) && events[|events| - 1].Pick?
    ensures AllPicks(events[start + 1..])
  {
    var init, picks := events[..|events| - 1], events[start + 1..];
    forall i | 0 <= i < |picks| ensures picks[i].Pick? {
      if i < |picks| - 1 {
        assert picks[i] == init[start + 1..][i];
      }
    }
  }

  lemma RunSinceStart(events: seq<Event>, start: nat, n: nat)
    requires start + 1 + n <= |events| && events[start].Start?
    ensures Run(INITIAL, events[..start + 1 + n]) ==
            Run(Dialog(Verify, events[start].asked, 0, false), events[start + 1..start + 1 + n])
  {
    assert events[..start + 1][..start] == events[..start];
    RunAppend(INITIAL, events[..start + 1], events[start + 1..start + 1 + n]);
    assert events[..start + 1] + events[start + 1..start + 1 + n] == events[..start + 1 + n];
  }

  lemma RunStep(d: Dialog, events: seq<Event>)
    requires events != []
    ensures Run(d, events) == Step(Run(d, events[..|events| - 1]), events[|events| - 1])
  {
  }

  lemma {:induction false} RunAppend(d: Dialog, a: seq<Event>, b: seq<Event>)
    ensures Run(d, a + b) == Run(Run(d, a), b)
  {
    if b == [] {
      assert a + b == a && Run(Run(d, a), []) == Run(d, a);
    } else {
      hide Step, Run;
      var ab, init, last := a + b, b[..|b| - 1], b[|b| - 1];
      RunAppend(d, a, init);
      assert ab[..|ab| - 1] == a + init && ab[|ab| - 1] == last;
      RunStep(d, ab);
      RunStep(Run(d, a), b);
    }
  }

  lemma PossibleBefore(events: seq<Event>)
    requires events != [] && Possible(events)
    ensures Possible(events[..|events| - 1])
  {
    var init := events[..|events| - 1];
    forall i | 0 <= i < |init| ensures Available(Run(INITIAL, init[..i]), init[i]) {
      assert init[..i] == events[..i] && init[i] == events[i];
    }
  }

  /** Off the first screen there is a last start, and everything since is a pick. */
  lemma {:induction false} LastStart(events: seq<Event>) returns (start: nat)
    requires Possible(events) && Run(INITIAL, events).stage != Show
    ensures start < |events| && events[start].Start? && AllPicks(events[start + 1..])
  {
    var init, last := events[..|events| - 1], events[|events| - 1];
    assert events[..|events| - 1] == init;
    assert Available(Run(INITIAL, init), last);
    assert Run(INITIAL, events) == Step(Run(INITIAL, init), last);
    assert last.Start? || last.Pick?;
    if last.Start? {
      start := |events| - 1;
      assert events[start + 1..] == [];
    } else {
      PossibleBefore(events);
      hide Run, Possible, AllPicks;
      start := LastStart(init);
      OneMorePick(events, start);
    }
  }

  /** The dialog object; each handler moves its state by the matching step. */
  class MnemonicVerifyModal {
    const words: seq<string>
    var step: Stage
    var challenges: seq<Challenge>
    var current: nat
    var error: bool

    function State(): Dialog
      reads this
    {
      Dialog(step, challenges, current, error)
    }

    constructor (words: seq<string>)
      ensures State() == INITIAL && this.words == words
    {
      this.words := words;
      step, challenges, current, error := Show, [], 0, false;
    }

    method StartVerify(draw: (nat, nat) -> seq<nat>)
      requires Random(draw)
      modifies this
      ensures State() == Step(old(State()), Start(challenges))
      ensures |challenges| == Least(3, |words|)
      ensures forall i :: 0 <= i < |challenges| ==> Sound(words, challenges[i])
      ensures forall i, j :: 0 <= i < j < |challenges| ==> challenges[i].index < challenges[j].index
    {
      challenges := PickChallenges(words, draw);
      current := 0;
      error := false;
      step := Verify;
    }

    method GoBack()
      modifies this
      ensures State() == Step(old(State()), Back)
    {
      error := false;
      step := Show;
    }

    method OnPick(word: string)
      modifies this
      ensures State() == Step(old(State()), Pick(word))
      ensures old(current < |challenges|) && word != old(challenges)[old(current)].answer ==>
        error && step == old(step) && current == old(current)
      ensures challenges == old(challenges)
    {
      if current >= |challenges| {
        return;
      }
      if word != challenges[current].answer {
        error := true;
        return;
      }
      error := false;
      if current + 1 >= |challenges| {
        step := Done;
        return;
      }
      current := current + 1;
    }

    /** Both leaving the dialog confirmed and cancelling it forget everything. */
    method Reset()
      modifies this
      ensures State() == INITIAL
    {
      step, challenges, current, error := Show, [], 0, false;
    }
  }
}
