/** The embedded word lists of automatic naming (`src/slug.rs`), and the two facts the naming
    theorems need: every word is a short run of lower-case letters, and no word occurs twice. */
module Words {
  import opened Text

  const ADJECTIVE_1: seq<string> := [
    "amber", "apple", "azure", "bold", "bright", "brisk", "calm", "clear", "cool", "cozy", "crisp",
    "dawn", "deep", "eager", "fair"
  ]

  const ADJECTIVE_2: seq<string> := [
    "fast", "fresh", "gentle", "golden", "green", "happy", "kind", "light", "lively", "lucky",
    "mellow", "merry", "misty", "neat", "noble"
  ]

  const ADJECTIVE_3: seq<string> := [
    "orange", "peaceful", "pink", "plain", "proud", "pure", "quick", "quiet", "rapid", "red",
    "rosy", "safe", "sharp", "silent", "silver"
  ]

  const ADJECTIVE_4: seq<string> := [
    "small", "soft", "solar", "still", "sunny", "sweet", "swift", "tiny", "true", "vivid", "warm",
    "white", "wild", "wise", "young"
  ]

  const ADJECTIVES: seq<string> := ADJECTIVE_1 + ADJECTIVE_2 + ADJECTIVE_3 + ADJECTIVE_4

  const NOUN_1: seq<string> := [
    "badger", "bay", "bear", "birch", "brook", "cedar", "cloud", "comet", "coral", "cove", "crane",
    "dawn", "deer", "dove", "eagle"
  ]

  const NOUN_2: seq<string> := [
    "falcon", "fern", "field", "finch", "forest", "fox", "grove", "harbor", "hawk", "hill",
    "island", "lake", "leaf", "lynx", "maple"
  ]

  const NOUN_3: seq<string> := [
    "meadow", "moon", "oak", "ocean", "orbit", "otter", "owl", "panda", "peak", "pebble", "pen",
    "pine", "pond", "rain", "reef"
  ]

  const NOUN_4: seq<string> := [
    "river", "robin", "sparrow", "star", "stone", "storm", "sun", "tiger", "trail", "valley",
    "wave", "willow", "wolf", "wood", "wren"
  ]

  const NOUNS: seq<string> := NOUN_1 + NOUN_2 + NOUN_3 + NOUN_4

  predicate IsWord(w: string) {
    1 <= |w| <= 31 && forall i :: 0 <= i < |w| ==> IsLower(w[i])
  }

  /** Strictly ascending, hence without repetition. */
  predicate Ascending(ws: seq<string>) {
    forall i :: 0 <= i < |ws| - 1 ==> Less(ws[i], ws[i + 1])
  }

  lemma {:induction false} AscendingIsDistinct(ws: seq<string>, i: nat, j: nat)
    requires Ascending(ws) && i < j < |ws|
    ensures Less(ws[i], ws[j]) && ws[i] != ws[j]
    decreases j
  {
    if i < j - 1 {
      AscendingIsDistinct(ws, i, j - 1);
      LessTransitive(ws[i], ws[j - 1], ws[j]);
    }
    LessTrichotomy(ws[i], ws[j]);
  }

  lemma AdjectivesAreWords()
    ensures |ADJECTIVES| == 60 && forall i :: 0 <= i < |ADJECTIVES| ==> IsWord(ADJECTIVES[i])
  {
    AdjectiveWords1();
    AdjectiveWords2();
    AdjectiveWords3();
    AdjectiveWords4();
  }

  lemma NounsAreWords()
    ensures |NOUNS| == 60 && forall i :: 0 <= i < |NOUNS| ==> IsWord(NOUNS[i])
  {
    NounWords1();
    NounWords2();
    NounWords3();
    NounWords4();
  }

  lemma AdjectivesAscend()
    ensures Ascending(ADJECTIVES)
  {
    AdjectiveOrder1();
    AdjectiveOrder2();
    AdjectiveOrder3();
    AdjectiveOrder4();
    Seams();
  }

  lemma NounsAscend()
    ensures Ascending(NOUNS)
  {
    NounOrder1();
    NounOrder2();
    NounOrder3();
    NounOrder4();
    Seams();
  }

  // The lists, fifteen words at a time.

  lemma AdjectiveWords1() ensures forall i :: 0 <= i < |ADJECTIVE_1| ==> IsWord(ADJECTIVE_1[i]) {}
  lemma AdjectiveOrder1() ensures forall i :: 0 <= i < |ADJECTIVE_1| - 1 ==> Less(ADJECTIVE_1[i], ADJECTIVE_1[i + 1]) {}
  lemma AdjectiveWords2() ensures forall i :: 0 <= i < |ADJECTIVE_2| ==> IsWord(ADJECTIVE_2[i]) {}
  lemma AdjectiveOrder2() ensures forall i :: 0 <= i < |ADJECTIVE_2| - 1 ==> Less(ADJECTIVE_2[i], ADJECTIVE_2[i + 1]) {}
  lemma AdjectiveWords3() ensures forall i :: 0 <= i < |ADJECTIVE_3| ==> IsWord(ADJECTIVE_3[i]) {}
  lemma AdjectiveOrder3() ensures forall i :: 0 <= i < |ADJECTIVE_3| - 1 ==> Less(ADJECTIVE_3[i], ADJECTIVE_3[i + 1]) {}
  lemma AdjectiveWords4() ensures forall i :: 0 <= i < |ADJECTIVE_4| ==> IsWord(ADJECTIVE_4[i]) {}
  lemma AdjectiveOrder4() ensures forall i :: 0 <= i < |ADJECTIVE_4| - 1 ==> Less(ADJECTIVE_4[i], ADJECTIVE_4[i + 1]) {}
  lemma NounWords1() ensures forall i :: 0 <= i < |NOUN_1| ==> IsWord(NOUN_1[i]) {}
  lemma NounOrder1() ensures forall i :: 0 <= i < |NOUN_1| - 1 ==> Less(NOUN_1[i], NOUN_1[i + 1]) {}
  lemma NounWords2() ensures forall i :: 0 <= i < |NOUN_2| ==> IsWord(NOUN_2[i]) {}
  lemma NounOrder2() ensures forall i :: 0 <= i < |NOUN_2| - 1 ==> Less(NOUN_2[i], NOUN_2[i + 1]) {}
  lemma NounWords3() ensures forall i :: 0 <= i < |NOUN_3| ==> IsWord(NOUN_3[i]) {}
  lemma NounOrder3() ensures forall i :: 0 <= i < |NOUN_3| - 1 ==> Less(NOUN_3[i], NOUN_3[i + 1]) {}
  lemma NounWords4() ensures forall i :: 0 <= i < |NOUN_4| ==> IsWord(NOUN_4[i]) {}
  lemma NounOrder4() ensures forall i :: 0 <= i < |NOUN_4| - 1 ==> Less(NOUN_4[i], NOUN_4[i + 1]) {}

  lemma Seams()
    ensures Less(ADJECTIVE_1[14], ADJECTIVE_2[0]) && Less(ADJECTIVE_2[14], ADJECTIVE_3[0])
    ensures Less(ADJECTIVE_3[14], ADJECTIVE_4[0])
    ensures Less(NOUN_1[14], NOUN_2[0]) && Less(NOUN_2[14], NOUN_3[0]) && Less(NOUN_3[14], NOUN_4[0])
  {}

}
