/** Slugs: validation, normalisation and automatic naming (`src/slug.rs`). */
module Slug {
  import opened Wrappers
  import opened Text
  import opened Words

  const MAX_SLUG_LEN := 63
  const GENERATED_SLUG_RANDOM_ATTEMPTS := 32

  // ---------------------------------------------------------------------------------------------
  // Validation
  // ---------------------------------------------------------------------------------------------

  /** A byte allowed in a label: the letter-digit-hyphen set of section 2.3.1 of RFC 1035,
      restricted to lower case. */
  predicate IsLabelByte(c: char) { IsLower(c) || IsDigit(c) || c == '-' }

  /** The reference definition of a slug: a DNS label (section 2.3.1 of RFC 1035, with the leading
      digit that section 2.1 of RFC 1123 allows), in lower case, and not a number. */
  predicate IsSlug(s: string) {
    && 1 <= |s| <= MAX_SLUG_LEN
    && (forall i :: 0 <= i < |s| ==> IsLabelByte(s[i]))
    && s[0] != '-' && s[|s| - 1] != '-'
    && (exists i :: 0 <= i < |s| && !IsDigit(s[i]))
  }

  datatype Reason = BadLength | BadCharacters | EdgeHyphen | AllNumeric

  /** Why a user's slug was refused, with the text as the user typed it. */
  datatype SlugError = InvalidSlug(input: string, reason: Reason)

  function ValidateNormalizedSlug(slug: string): Result<(), Reason> {
    if slug == "" || |slug| > MAX_SLUG_LEN then Err(BadLength)
    else if !(forall c :: c in slug ==> IsAscii(c)) then Err(BadCharacters)
    else if slug[0] == '-' || slug[|slug| - 1] == '-' then Err(EdgeHyphen)
    else if !(forall c :: c in slug ==> IsLower(c) || IsDigit(c) || c == '-') then Err(BadCharacters)
    else if forall c :: c in slug ==> IsDigit(c) then Err(AllNumeric)
    else Ok(())
  }

  function NormalizeSlug(input: string): Result<string, SlugError> {
    var normalized := Lower(input);
    match ValidateNormalizedSlug(normalized)
    case Ok(_) => Ok(normalized)
    case Err(reason) => Err(InvalidSlug(input, reason))
  }

  /** The validator accepts exactly the slugs. */
  lemma ValidateAcceptsSlugs(s: string)
    ensures ValidateNormalizedSlug(s).Ok? <==> IsSlug(s)
  {
    if forall c :: c in s ==> IsDigit(c) {
      assert forall i :: 0 <= i < |s| ==> s[i] in s;
    }
    if IsSlug(s) {
      assert forall c :: c in s ==> IsLabelByte(c);
    }
    assert (forall c :: c in s ==> IsLabelByte(c)) ==> forall i :: 0 <= i < |s| ==> IsLabelByte(s[i]);
  }

  /** A slug is its own lower-case form. */
  lemma SlugIsLower(s: string)
    requires IsSlug(s)
    ensures Lower(s) == s
  {
    assert forall i :: 0 <= i < |s| ==> LowerByte(s[i]) == s[i];
  }

  /** Normalisation yields a slug, leaves slugs alone and is idempotent; it refuses exactly the
      inputs whose lower-case form is not a slug. */
  lemma NormalizeSlugMeaning(s: string)
    ensures NormalizeSlug(s).Ok? <==> IsSlug(Lower(s))
    ensures NormalizeSlug(s).Ok? ==>
              && NormalizeSlug(s).value == Lower(s)
              && NormalizeSlug(Lower(s)) == NormalizeSlug(s)
    ensures IsSlug(s) ==> NormalizeSlug(s) == Ok(s)
  {
    ValidateAcceptsSlugs(Lower(s));
    LowerFacts(s, "");
    if IsSlug(s) {
      SlugIsLower(s);
    }
  }

  // ---------------------------------------------------------------------------------------------
  // Automatic naming
  // ---------------------------------------------------------------------------------------------

  function Pair(adjective: string, noun: string): string {
    adjective + "-" + noun
  }

  type AdjectiveIndex = i: nat | i < |ADJECTIVES| witness 0
  type NounIndex = i: nat | i < |NOUNS| witness 0

  /** What the random number generator draws for one candidate. */
  datatype Draw = Draw(adjective: AdjectiveIndex, noun: NounIndex)

  /** The draws of one call of `generate_unique_slug`. */
  type Draws = ds: seq<Draw> | |ds| == GENERATED_SLUG_RANDOM_ATTEMPTS
    witness seq(GENERATED_SLUG_RANDOM_ATTEMPTS, _ => Draw(0, 0))

  function GenerateSlug(draw: Draw): string {
    Pair(ADJECTIVES[draw.adjective], NOUNS[draw.noun])
  }

  /** A slug that automatic naming can produce. */
  ghost predicate IsGenerated(slug: string) {
    exists draw: Draw :: slug == GenerateSlug(draw)
  }

  /** The first word of `candidates` that is not taken. */
  function FirstFree(candidates: seq<string>, taken: set<string>): Option<string> {
    if candidates == [] then None
    else if candidates[0] !in taken then Some(candidates[0])
    else FirstFree(candidates[1..], taken)
  }

  /** The pairs of one adjective with the nouns, and the pairs of all adjectives, in list order. */
  function Row(a: nat): (r: seq<string>)
    requires a < |ADJECTIVES|
  {
    seq(|NOUNS|, n requires 0 <= n < |NOUNS| => Pair(ADJECTIVES[a], NOUNS[n]))
  }

  function RowsFrom(a: nat): seq<string>
    requires a <= |ADJECTIVES|
    decreases |ADJECTIVES| - a
  {
    if a == |ADJECTIVES| then [] else Row(a) + RowsFrom(a + 1)
  }

  /** Every candidate of one naming call, in the order they are tried. */
  function Candidates(draws: Draws): seq<string> {
    seq(|draws|, i requires 0 <= i < |draws| => GenerateSlug(draws[i])) + RowsFrom(0)
  }

  function UniqueSlug(draws: Draws, taken: set<string>): Option<string> {
    FirstFree(Candidates(draws), taken)
  }

  lemma {:induction false} FirstFreeAt(candidates: seq<string>, taken: set<string>, k: nat)
    requires k < |candidates| && candidates[k] !in taken && forall j :: 0 <= j < k ==> candidates[j] in taken
    ensures FirstFree(candidates, taken) == Some(candidates[k])
  {
    if k > 0 {
      FirstFreeAt(candidates[1..], taken, k - 1);
    }
  }

  lemma {:induction false} FirstFreeSkips(busy: seq<string>, rest: seq<string>, taken: set<string>)
    requires forall c :: c in busy ==> c in taken
    ensures FirstFree(busy + rest, taken) == FirstFree(rest, taken)
  {
    if busy == [] {
      assert busy + rest == rest;
    } else {
      assert (busy + rest)[1..] == busy[1..] + rest;
      FirstFreeSkips(busy[1..], rest, taken);
    }
  }

  /** Draw `i` is the first whose name is free. */
  ghost predicate FirstFreeDraw(draws: Draws, taken: set<string>, i: nat) {
    && i < |draws| && GenerateSlug(draws[i]) !in taken
    && forall j :: 0 <= j < i ==> GenerateSlug(draws[j]) in taken
  }

  /** Adjective `a` with noun `n` is the first free pair, by adjective and then by noun. */
  ghost predicate FirstFreePair(taken: set<string>, a: AdjectiveIndex, n: NounIndex) {
    && GenerateSlug(Draw(a, n)) !in taken
    && (forall b: AdjectiveIndex, m: NounIndex :: b < a ==> GenerateSlug(Draw(b, m)) in taken)
    && (forall m: NounIndex :: m < n ==> GenerateSlug(Draw(a, m)) in taken)
  }

  /** The name of the first free draw is chosen ... */
  lemma DrawsComeFirst(draws: Draws, taken: set<string>, i: nat)
    requires FirstFreeDraw(draws, taken, i)
    ensures UniqueSlug(draws, taken) == Some(GenerateSlug(draws[i]))
  {
    hide GenerateSlug, RowsFrom, FirstFree;
    FirstFreeAt(Candidates(draws), taken, i);
  }

  lemma {:induction false} RowsSkip(taken: set<string>, b: nat, a: AdjectiveIndex)
    requires b <= a && forall c: AdjectiveIndex, m: NounIndex :: c < a ==> GenerateSlug(Draw(c, m)) in taken
    ensures FirstFree(RowsFrom(b), taken) == FirstFree(RowsFrom(a), taken)
    decreases a - b
  {
    if b < a {
      forall c | c in Row(b) ensures c in taken {
        var m :| 0 <= m < |NOUNS| && c == Row(b)[m];
        assert GenerateSlug(Draw(b, m)) in taken;
      }
      FirstFreeSkips(Row(b), RowsFrom(b + 1), taken);
      RowsSkip(taken, b + 1, a);
    }
  }

  /** ... and, if all draws are taken, the first free pair. */
  lemma PairsComeInOrder(draws: Draws, taken: set<string>, a: AdjectiveIndex, n: NounIndex)
    requires forall i :: 0 <= i < |draws| ==> GenerateSlug(draws[i]) in taken
    requires FirstFreePair(taken, a, n)
    ensures UniqueSlug(draws, taken) == Some(GenerateSlug(Draw(a, n)))
  {
    var drawn := seq(|draws|, i requires 0 <= i < |draws| => GenerateSlug(draws[i]));
    FirstFreeSkips(drawn, RowsFrom(0), taken);
    RowsSkip(taken, 0, a);
    var rows := RowsFrom(a);
    forall m | 0 <= m < n ensures rows[m] in taken {
      assert rows[m] == GenerateSlug(Draw(a, m));
    }
    FirstFreeAt(rows, taken, n);
  }

  /** A name is the adjective, a hyphen and the noun; some of them spelled out. */
  lemma NamesSpelled(draw: Draw)
    ensures var slug, k := GenerateSlug(draw), |ADJECTIVES[draw.adjective]|;
            && |slug| == k + 1 + |NOUNS[draw.noun]|
            && slug[..k] == ADJECTIVES[draw.adjective] && slug[k] == '-' && slug[k + 1..] == NOUNS[draw.noun]
    ensures GenerateSlug(Draw(0, 0)) == "amber-badger"
    ensures GenerateSlug(Draw(3, 4)) == "bold-brook"
    ensures GenerateSlug(Draw(59, 59)) == "young-wren"
  {
    assert ADJECTIVES[59] == "young" && NOUNS[59] == "wren";
    assert ADJECTIVES[3] == "bold" && NOUNS[4] == "brook";
  }

  /** What automatic naming chooses: the name of the first free draw; if all draws are taken, the
      first free pair; none if there is no free pair. */
  ghost predicate IsChoice(draws: Draws, taken: set<string>, r: Option<string>) {
    match r
    case None => forall draw: Draw :: GenerateSlug(draw) in taken
    case Some(slug) =>
      || (exists i: nat :: FirstFreeDraw(draws, taken, i) && slug == GenerateSlug(draws[i]))
      || (&& (forall i :: 0 <= i < |draws| ==> GenerateSlug(draws[i]) in taken)
          && exists draw: Draw :: FirstFreePair(taken, draw.adjective, draw.noun) && slug == GenerateSlug(draw))
  }

  lemma SplitWord(w: string, v: string)
    requires IsWord(w)
    ensures '-' !in w && Pair(w, v)[|w|] == '-'
  {
  }

  /** The hyphen join is injective on words. */
  lemma PairInjective(a: string, b: string, c: string, d: string)
    requires IsWord(a) && IsWord(c) && Pair(a, b) == Pair(c, d)
    ensures a == c && b == d
  {
    SplitWord(a, b);
    SplitWord(c, d);
    assert |a| == |c|;
    assert a == Pair(a, b)[..|a|] && c == Pair(c, d)[..|c|];
    assert b == Pair(a, b)[|a| + 1..] && d == Pair(c, d)[|c| + 1..];
  }

  lemma GenerateSlugInjective(x: Draw, y: Draw)
    requires GenerateSlug(x) == GenerateSlug(y)
    ensures x == y
  {
    AdjectivesAreWords();
    PairInjective(ADJECTIVES[x.adjective], NOUNS[x.noun], ADJECTIVES[y.adjective], NOUNS[y.noun]);
    AdjectivesAscend();
    NounsAscend();
    if x.adjective != y.adjective {
      AscendingIsDistinct(ADJECTIVES, Min(x.adjective, y.adjective), Max(x.adjective, y.adjective));
    }
    if x.noun != y.noun {
      AscendingIsDistinct(NOUNS, Min(x.noun, y.noun), Max(x.noun, y.noun));
    }
  }

  function Min(a: nat, b: nat): nat { if a <= b then a else b }

  function Max(a: nat, b: nat): nat { if a <= b then b else a }

  lemma GeneratedIsSlug(draw: Draw)
    ensures IsSlug(GenerateSlug(draw))
  {
    AdjectivesAreWords();
    NounsAreWords();
    assert !IsDigit(GenerateSlug(draw)[0]);
  }

  // Completeness --------------------------------------------------------------------------------

  lemma {:induction false} FirstFreeMeaning(candidates: seq<string>, taken: set<string>)
    ensures var r := FirstFree(candidates, taken);
            match r
            case None => forall c :: c in candidates ==> c in taken
            case Some(slug) => slug in candidates && slug !in taken
  {
    if candidates != [] && candidates[0] in taken {
      FirstFreeMeaning(candidates[1..], taken);
      assert candidates == [candidates[0]] + candidates[1..];
    }
  }

  /** The exhaustive search visits exactly the pairs of the rows from `a` on. */
  lemma {:induction false} RowsFromMeaning(a: nat, slug: string)
    requires a <= |ADJECTIVES|
    ensures slug in RowsFrom(a) <==> exists draw: Draw :: draw.adjective >= a && slug == GenerateSlug(draw)
    decreases |ADJECTIVES| - a
  {
    if a < |ADJECTIVES| {
      RowsFromMeaning(a + 1, slug);
      if slug in Row(a) {
        var n :| 0 <= n < |NOUNS| && slug == Row(a)[n];
        assert slug == GenerateSlug(Draw(a, n));
      }
      forall draw: Draw | draw.adjective == a && slug == GenerateSlug(draw) ensures slug in Row(a) {
        assert Row(a)[draw.noun] == slug;
      }
    }
  }

  /** Automatic naming is complete: it yields a generated slug that is not taken, and fails only
      when every adjective-noun pair is taken. */
  lemma UniqueSlugComplete(draws: Draws, taken: set<string>)
    ensures UniqueSlug(draws, taken).None? <==> forall draw: Draw :: GenerateSlug(draw) in taken
    ensures UniqueSlug(draws, taken).Some? ==>
              var slug := UniqueSlug(draws, taken).value;
              slug !in taken && IsGenerated(slug) && IsSlug(slug)
  {
    FirstFreeMeaning(Candidates(draws), taken);
    var r := UniqueSlug(draws, taken);
    if r.Some? {
      var slug := r.value;
      var k :| 0 <= k < |Candidates(draws)| && Candidates(draws)[k] == slug;
      if k < |draws| {
        assert slug == GenerateSlug(draws[k]);
      } else {
        assert slug == RowsFrom(0)[k - |draws|];
        RowsFromMeaning(0, slug);
      }
      var draw: Draw :| slug == GenerateSlug(draw);
      GeneratedIsSlug(draw);
    } else {
      forall draw: Draw ensures GenerateSlug(draw) in taken {
        RowsFromMeaning(0, GenerateSlug(draw));
      }
    }
  }

  /** The first free draw, or the number of draws. */
  lemma {:induction false} FirstDraw(draws: Draws, taken: set<string>, i: nat) returns (k: nat)
    requires i <= |draws| && forall j :: 0 <= j < i ==> GenerateSlug(draws[j]) in taken
    ensures k == |draws| || FirstFreeDraw(draws, taken, k)
    ensures k == |draws| ==> forall j :: 0 <= j < |draws| ==> GenerateSlug(draws[j]) in taken
    decreases |draws| - i
  {
    hide GenerateSlug;
    if i == |draws| || GenerateSlug(draws[i]) !in taken {
      k := i;
    } else {
      k := FirstDraw(draws, taken, i + 1);
    }
  }

  ghost predicate RowTaken(taken: set<string>, a: AdjectiveIndex, n: nat) {
    forall m: NounIndex :: m < n ==> GenerateSlug(Draw(a, m)) in taken
  }

  lemma {:induction false} FirstNoun(taken: set<string>, a: AdjectiveIndex, n: nat) returns (k: nat)
    requires n <= 60 && RowTaken(taken, a, n)
    ensures k <= 60 && RowTaken(taken, a, k) && (k < 60 ==> GenerateSlug(Draw(a, k)) !in taken)
    decreases 60 - n
  {
    hide GenerateSlug;
    if n == 60 || GenerateSlug(Draw(a, n)) !in taken {
      k := n;
    } else {
      k := FirstNoun(taken, a, n + 1);
    }
  }

  /** Some pair is the first free one, unless all are taken. */
  lemma {:induction false} FirstPair(taken: set<string>, a: nat)
    requires a <= 60 && forall b: AdjectiveIndex :: b < a ==> RowTaken(taken, b, 60)
    ensures (forall draw: Draw :: GenerateSlug(draw) in taken)
            || exists draw: Draw :: FirstFreePair(taken, draw.adjective, draw.noun)
    decreases 60 - a
  {
    hide GenerateSlug;
    if a == 60 {
      forall draw: Draw ensures GenerateSlug(draw) in taken {
        assert RowTaken(taken, draw.adjective, 60);
      }
    } else {
      var k := FirstNoun(taken, a, 0);
      if k == 60 {
        FirstPair(taken, a + 1);
      } else {
        var draw := Draw(a, k);
        forall b: AdjectiveIndex, m: NounIndex | b < a ensures GenerateSlug(Draw(b, m)) in taken {
          assert RowTaken(taken, b, 60);
        }
        assert FirstFreePair(taken, draw.adjective, draw.noun);
      }
    }
  }

  lemma UniqueSlugIsChoice(draws: Draws, taken: set<string>)
    ensures IsChoice(draws, taken, UniqueSlug(draws, taken))
  {
    hide UniqueSlug, GenerateSlug;
    UniqueSlugComplete(draws, taken);
    var k := FirstDraw(draws, taken, 0);
    if k < |draws| {
      DrawsComeFirst(draws, taken, k);
    } else {
      FirstPair(taken, 0);
      if draw: Draw :| FirstFreePair(taken, draw.adjective, draw.noun) {
        PairsComeInOrder(draws, taken, draw.adjective, draw.noun);
      }
    }
  }

  /** `generate_unique_slug`: random attempts, then an exhaustive search. */
  method GenerateUniqueSlug(draws: Draws, taken: set<string>) returns (r: Option<string>)
    ensures r == UniqueSlug(draws, taken)
    ensures IsChoice(draws, taken, r)
  {
    hide IsChoice;
    UniqueSlugIsChoice(draws, taken);
    ghost var all := Candidates(draws);
    var i := 0;
    while i < GENERATED_SLUG_RANDOM_ATTEMPTS
      invariant 0 <= i <= |draws|
      invariant FirstFree(all, taken) == FirstFree(all[i..], taken)
    {
      var candidate := GenerateSlug(draws[i]);
      assert all[i..][0] == candidate && all[i..][1..] == all[i + 1..];
      if candidate !in taken {
        return Some(candidate);
      }
      i := i + 1;
    }
    assert all[|draws|..] == RowsFrom(0);
    var a := 0;
    while a < |ADJECTIVES|
      invariant 0 <= a <= |ADJECTIVES|
      invariant FirstFree(all, taken) == FirstFree(RowsFrom(a), taken)
    {
      ghost var rows := RowsFrom(a);
      var n := 0;
      while n < |NOUNS|
        invariant 0 <= n <= |NOUNS|
        invariant FirstFree(all, taken) == FirstFree(rows[n..], taken)
      {
        var candidate := Pair(ADJECTIVES[a], NOUNS[n]);
        assert rows[n..][0] == candidate && rows[n..][1..] == rows[n + 1..];
        if candidate !in taken {
          return Some(candidate);
        }
        n := n + 1;
      }
      assert rows[|NOUNS|..] == RowsFrom(a + 1);
      a := a + 1;
    }
    r := None;
  }

  const NAME_COUNT := 3600

  /** The pairs numbered in list order. */
  function DrawAt(k: nat): Draw
    requires k < NAME_COUNT
  {
    Draw(k / 60, k % 60)
  }

  function FirstNames(k: nat): set<string>
    requires k <= NAME_COUNT
  {
    if k == 0 then {} else FirstNames(k - 1) + {GenerateSlug(DrawAt(k - 1))}
  }

  lemma {:induction false} FirstNamesCount(k: nat)
    requires k <= NAME_COUNT
    ensures |FirstNames(k)| == k
    ensures forall slug :: slug in FirstNames(k) ==> exists j :: 0 <= j < k && slug == GenerateSlug(DrawAt(j))
  {
    if k > 0 {
      FirstNamesCount(k - 1);
      var next := GenerateSlug(DrawAt(k - 1));
      if next in FirstNames(k - 1) {
        var j :| 0 <= j < k - 1 && next == GenerateSlug(DrawAt(j));
        GenerateSlugInjective(DrawAt(j), DrawAt(k - 1));
        assert false;
      }
    }
  }

  /** Pigeonhole: with fewer taken slugs than word pairs, naming cannot fail. */
  lemma UniqueSlugSucceeds(draws: Draws, taken: set<string>)
    requires |taken| < NAME_COUNT
    ensures UniqueSlug(draws, taken).Some?
  {
    UniqueSlugComplete(draws, taken);
    if UniqueSlug(draws, taken).None? {
      FirstNamesCount(NAME_COUNT);
      assert FirstNames(NAME_COUNT) <= taken;
      SubsetSize(FirstNames(NAME_COUNT), taken);
    }
  }

  lemma {:induction false} SubsetSize<T>(a: set<T>, b: set<T>)
    requires a <= b
    ensures |a| <= |b|
  {
    assert b == a + (b - a);
  }
}
