/**
 * CHOOSE_ACCENT exercises for Bulgarian: a word whose stressed vowel carries a combining
 * grave accent (U+0300) is offered together with copies that carry the mark on each of its
 * other vowels.
 *
 * Words are taken in decomposed (NFD) form, so the accent is the separate character U+0300
 * that follows its vowel.
 */
module AccentGenerator {
  import opened Wrappers
  import opened Strings

  /** U+0300 COMBINING GRAVE ACCENT, the stress mark. */
  const Mark: char := '\U{300}'
  const MinVowels: nat := 2
  const MaxVowels: nat := 5
  const MinMeaningLen: nat := 0
  const MinWordRank: int := 1500

  /** The Bulgarian vowels 'аеиоуъюя', in either case. */
  predicate IsVowel(c: char)
  {
    c in "аеиоуъюя" || c in "АЕИОУЪЮЯ"
  }

  lemma MarkIsNotVowel()
    ensures !IsVowel(Mark)
  {
  }

  /** The vowel at `i` carries the stress mark. */
  predicate AccentedAt(word: string, i: int)
  {
    0 <= i < |word| - 1 && IsVowel(word[i]) && word[i + 1] == Mark
  }

  /** `has_accent_nfd`: some vowel is directly followed by the mark. */
  predicate HasAccent(word: string)
  {
    exists i | 0 <= i < |word| - 1 :: IsVowel(word[i]) && word[i + 1] == Mark
  }

  function AccentIndexFrom(word: string, from: nat): (r: int)
    ensures r == -1 || from <= r
    ensures r >= 0 ==> AccentedAt(word, r) && forall j :: from <= j < r ==> !AccentedAt(word, j)
    ensures r == -1 ==> forall j :: from <= j ==> !AccentedAt(word, j)
    decreases |word| - from
  {
    if from + 1 >= |word| then -1
    else if IsVowel(word[from]) && word[from + 1] == Mark then from
    else AccentIndexFrom(word, from + 1)
  }

  /** The first accented vowel, or -1. */
  function AccentIndex(word: string): (r: int)
    ensures r == -1 <==> !HasAccent(word)
    ensures r >= 0 ==> AccentedAt(word, r) && forall j :: 0 <= j < r ==> !AccentedAt(word, j)
  {
    HasAccentWitness(word);
    AccentIndexFrom(word, 0)
  }

  lemma HasAccentWitness(word: string)
    ensures HasAccent(word) <==> exists i :: AccentedAt(word, i)
  {
    if HasAccent(word) {
      var i :| 0 <= i < |word| - 1 && IsVowel(word[i]) && word[i + 1] == Mark;
      assert AccentedAt(word, i);
    }
  }

  /** `get_accent_index`: scans the word for the first vowel followed by the mark. */
  method GetAccentIndex(word: string) returns (r: int)
    ensures r == AccentIndex(word)
  {
    var i := 0;
    while i + 1 < |word|
      invariant 0 <= i
      invariant forall j :: 0 <= j < i ==> !AccentedAt(word, j)
      invariant AccentIndexFrom(word, i) == AccentIndex(word)
    {
      if IsVowel(word[i]) && word[i + 1] == Mark {
        return i;
      }
      i := i + 1;
    }
    return -1;
  }

  /** The positions of the vowels among the first `n` characters. */
  function VowelIndexesUpTo(word: string, n: nat): seq<nat>
    requires n <= |word|
  {
    if n == 0 then [] else VowelIndexesUpTo(word, n - 1) + (if IsVowel(word[n - 1]) then [n - 1] else [])
  }

  /** `get_vowels_indexes`: the positions of the vowels. */
  function VowelIndexes(word: string): seq<nat>
  {
    VowelIndexesUpTo(word, |word|)
  }

  /** Every collected position among the first `n` characters holds a vowel. */
  lemma {:induction false} VowelIndexesUpToSound(word: string, n: nat)
    requires n <= |word|
    ensures forall k :: 0 <= k < |VowelIndexesUpTo(word, n)| ==>
      VowelIndexesUpTo(word, n)[k] < n && IsVowel(word[VowelIndexesUpTo(word, n)[k]])
  {
    if n > 0 {
      VowelIndexesUpToSound(word, n - 1);
      var ri := VowelIndexesUpTo(word, n - 1);
      assert VowelIndexesUpTo(word, n) == ri + (if IsVowel(word[n - 1]) then [n - 1] else []);
    }
  }

  /** The collected positions ascend. */
  lemma {:induction false} VowelIndexesUpToAscending(word: string, n: nat)
    requires n <= |word|
    ensures forall k, l :: 0 <= k < l < |VowelIndexesUpTo(word, n)| ==>
      VowelIndexesUpTo(word, n)[k] < VowelIndexesUpTo(word, n)[l]
  {
    if n > 0 {
      VowelIndexesUpToAscending(word, n - 1);
      VowelIndexesUpToSound(word, n - 1);
      var ri := VowelIndexesUpTo(word, n - 1);
      assert VowelIndexesUpTo(word, n) == ri + (if IsVowel(word[n - 1]) then [n - 1] else []);
    }
  }

  /** No vowel among the first `n` characters is missed. */
  lemma {:induction false} VowelIndexesUpToComplete(word: string, n: nat)
    requires n <= |word|
    ensures forall i :: 0 <= i < n && IsVowel(word[i]) ==> i in VowelIndexesUpTo(word, n)
  {
    if n > 0 {
      VowelIndexesUpToComplete(word, n - 1);
      var ri := VowelIndexesUpTo(word, n - 1);
      var r := VowelIndexesUpTo(word, n);
      assert r == ri + (if IsVowel(word[n - 1]) then [n - 1] else []);
      forall i | 0 <= i < n && IsVowel(word[i]) ensures i in r {
        if i < n - 1 {
          assert i in ri;
        }
      }
    }
  }

  /** Exactly the positions of the vowels, ascending. */
  lemma VowelIndexesExact(word: string)
    ensures forall k :: 0 <= k < |VowelIndexes(word)| ==>
      VowelIndexes(word)[k] < |word| && IsVowel(word[VowelIndexes(word)[k]])
    ensures forall k, l :: 0 <= k < l < |VowelIndexes(word)| ==> VowelIndexes(word)[k] < VowelIndexes(word)[l]
    ensures forall i :: 0 <= i < |word| && IsVowel(word[i]) ==> i in VowelIndexes(word)
  {
    VowelIndexesUpToSound(word, |word|);
    VowelIndexesUpToAscending(word, |word|);
    VowelIndexesUpToComplete(word, |word|);
  }

  /** `word[:a+1] + word[a+2:]` with Python's slice clamping: the word without the character
      after position `a`; for `a == -1` that is the first character. */
  function WithoutAccent(word: string, a: int): (w: string)
    requires a >= -1
    ensures a + 2 <= |word| ==> |w| == |word| - 1
  {
    var i := if a + 1 <= |word| then a + 1 else |word|;
    var j := if a + 2 <= |word| then a + 2 else |word|;
    word[..i] + word[j..]
  }

  /** Where the mark goes in the unaccented word for the vowel at `v`. */
  function MarkSlot(v: int, a: int): int
  {
    if v < a then v + 1 else v
  }

  /** `w[:i] + '\u0300' + w[i:]`, with Python's slice clamping. */
  function PlaceMark(w: string, i: int): (r: string)
    ensures |r| == |w| + 1
    ensures 0 <= i <= |w| ==> r[i] == Mark && r == w[..i] + [Mark] + w[i..]
  {
    var k := if i < 0 then 0 else if i <= |w| then i else |w|;
    w[..k] + [Mark] + w[k..]
  }

  /** The vowels other than the accented one, in order. */
  function Others(vs: seq<nat>, a: int): seq<nat>
  {
    if |vs| == 0 then []
    else Others(vs[..|vs| - 1], a) + (if vs[|vs| - 1] != a then [vs[|vs| - 1]] else [])
  }

  /** Skipping the accented position keeps the others, in their order. */
  lemma {:induction false} OthersKept(vs: seq<nat>, a: int)
    ensures forall k :: 0 <= k < |Others(vs, a)| ==> Others(vs, a)[k] in vs && Others(vs, a)[k] != a
    ensures (forall k, l :: 0 <= k < l < |vs| ==> vs[k] < vs[l]) ==>
      (forall k, l :: 0 <= k < l < |Others(vs, a)| ==> Others(vs, a)[k] < Others(vs, a)[l])
  {
    if |vs| > 0 {
      var init := vs[..|vs| - 1];
      OthersKept(init, a);
      var r := Others(vs, a);
      var ri := Others(init, a);
      forall k | 0 <= k < |r| ensures r[k] in vs && r[k] != a {
        if k < |ri| {
          assert r[k] == ri[k];
          var m :| 0 <= m < |init| && init[m] == ri[k];
          assert vs[m] == r[k];
        }
      }
      if forall k, l :: 0 <= k < l < |vs| ==> vs[k] < vs[l] {
        assert forall k, l :: 0 <= k < l < |init| ==> init[k] < init[l];
        forall k, l | 0 <= k < l < |r| ensures r[k] < r[l] {
          if l >= |ri| {
            assert r[k] == ri[k];
            var m :| 0 <= m < |init| && init[m] == ri[k];
            assert vs[m] == r[k] && r[l] == vs[|vs| - 1];
          } else {
            assert r[k] == ri[k] && r[l] == ri[l];
          }
        }
      }
    }
  }

  lemma {:induction false} OthersCount(vs: seq<nat>, a: int)
    requires forall k, l :: 0 <= k < l < |vs| ==> vs[k] < vs[l]
    ensures |Others(vs, a)| == |vs| - (if a in vs then 1 else 0)
    decreases |vs|
  {
    if |vs| > 0 {
      var init := vs[..|vs| - 1];
      OthersCount(init, a);
      assert vs == init + [vs[|vs| - 1]];
      if vs[|vs| - 1] == a {
        assert a !in init;
      }
    }
  }

  /** The mark placed after each vowel in `vs`. */
  function PlaceEach(vs: seq<nat>, a: int, w: string): (r: seq<string>)
    ensures |r| == |vs|
  {
    seq(|vs|, k requires 0 <= k < |vs| => PlaceMark(w, MarkSlot(vs[k], a)))
  }

  lemma OthersStep(vs: seq<nat>, i: nat, a: int)
    requires i < |vs|
    ensures Others(vs[..i + 1], a) == Others(vs[..i], a) + (if vs[i] != a then [vs[i]] else [])
  {
    assert vs[..i + 1][..i] == vs[..i];
  }

  lemma PlaceEachStep(vs: seq<nat>, v: nat, a: int, w: string)
    ensures PlaceEach(vs + [v], a, w) == PlaceEach(vs, a, w) + [PlaceMark(w, MarkSlot(v, a))]
  {
  }

  /** The options the generator builds for `word`: the mark moved onto every other vowel. */
  function IncorrectAccents(word: string): (r: seq<string>)
  {
    var vs := VowelIndexes(word);
    var a := AccentIndex(word);
    PlaceEach(Others(vs, a), a, WithoutAccent(word, a))
  }

  /** `generate_incorrect_accents`: for every vowel other than the accented one, the word
      without its mark, with the mark put back after that vowel. */
  method GenerateIncorrectAccents(word: string) returns (res: seq<string>)
    ensures res == IncorrectAccents(word)
  {
    var vs := VowelIndexes(word);
    var a := GetAccentIndex(word);
    var w := WithoutAccent(word, a);
    res := [];
    var i := 0;
    while i < |vs|
      invariant 0 <= i <= |vs|
      invariant res == PlaceEach(Others(vs[..i], a), a, w)
    {
      OthersStep(vs, i, a);
      PlaceEachStep(Others(vs[..i], a), vs[i], a, w);
      var v := vs[i];
      if v != a {
        var slot := MarkSlot(v, a);
        res := res + [PlaceMark(w, slot)];
      }
      i := i + 1;
    }
    assert vs[..i] == vs;
  }

  /** The stressed word is its unaccented form with the mark put back after the stressed
      vowel. */
  lemma WordIsMarkedWithoutAccent(word: string)
    requires HasAccent(word)
    ensures var a := AccentIndex(word); word == PlaceMark(WithoutAccent(word, a), a + 1)
  {
    var a := AccentIndex(word);
    var w := WithoutAccent(word, a);
    assert PlaceMark(w, a + 1) == word[..a + 1] + [word[a + 1]] + word[a + 2..];
    assert word == word[..a + 1] + [word[a + 1]] + word[a + 2..];
  }

  /** Two placements of the mark differ when the character before the later slot is not
      itself a mark. */
  lemma PlacementsDiffer(w: string, i: nat, j: nat)
    requires i < j <= |w| && w[j - 1] != Mark
    ensures PlaceMark(w, i) != PlaceMark(w, j)
  {
    assert PlaceMark(w, i)[j] == w[j - 1];
  }

  /** In the unaccented word, the character just before the slot of vowel `v` is that vowel. */
  lemma SlotFollowsVowel(word: string, v: nat)
    requires HasAccent(word) && v < |word| && IsVowel(word[v]) && v != AccentIndex(word)
    ensures var a := AccentIndex(word);
      1 <= MarkSlot(v, a) <= |WithoutAccent(word, a)| &&
      WithoutAccent(word, a)[MarkSlot(v, a) - 1] == word[v]
  {
    var a := AccentIndex(word);
    MarkIsNotVowel();
    if v > a {
      assert v != a + 1;
      assert WithoutAccent(word, a)[v - 1] == word[a + 2..][v - 1 - (a + 1)];
    }
  }

  /** One option per vowel other than the stressed one. */
  lemma IncorrectAccentsCount(word: string)
    requires HasAccent(word)
    ensures |IncorrectAccents(word)| == |VowelIndexes(word)| - 1
  {
    var vs := VowelIndexes(word);
    var a := AccentIndex(word);
    VowelIndexesExact(word);
    assert a in vs;
    OthersCount(vs, a);
  }

  /** The option at `k` is the unaccented word with the mark after the `k`-th vowel other
      than the stressed one. */
  lemma IncorrectAccentAt(word: string, k: nat)
    requires HasAccent(word) && k < |IncorrectAccents(word)|
    ensures var a := AccentIndex(word); var v := Others(VowelIndexes(word), a)[k];
      && v < |word| && IsVowel(word[v]) && v != a
      && IncorrectAccents(word)[k] == PlaceMark(WithoutAccent(word, a), MarkSlot(v, a))
  {
    var v := Others(VowelIndexes(word), AccentIndex(word))[k];
    OthersKept(VowelIndexes(word), AccentIndex(word));
    VowelIndexesExact(word);
    assert v in VowelIndexes(word);
  }

  /** Putting the mark after another vowel than the stressed one never gives the word back. */
  lemma OtherPlacementDiffers(word: string, v: nat)
    requires HasAccent(word) && v < |word| && IsVowel(word[v]) && v != AccentIndex(word)
    ensures PlaceMark(WithoutAccent(word, AccentIndex(word)), MarkSlot(v, AccentIndex(word))) != word
  {
    var a := AccentIndex(word);
    var w := WithoutAccent(word, a);
    SlotFollowsVowel(word, v);
    WordIsMarkedWithoutAccent(word);
    MarkIsNotVowel();
    if v < a {
      PlacementsDiffer(w, MarkSlot(v, a), a + 1);
    } else {
      PlacementsDiffer(w, a + 1, MarkSlot(v, a));
    }
  }

  /** The mark placed after another vowel keeps the word's length and sits right after that
      vowel. */
  lemma OtherPlacementShape(word: string, v: nat)
    requires HasAccent(word) && v < |word| && IsVowel(word[v]) && v != AccentIndex(word)
    ensures var a := AccentIndex(word); var s := MarkSlot(v, a);
      var o := PlaceMark(WithoutAccent(word, a), s);
      && |o| == |word| && 1 <= s < |word| && o[s - 1] == word[v] && o[s] == Mark
  {
    var a := AccentIndex(word);
    var w := WithoutAccent(word, a);
    SlotFollowsVowel(word, v);
    var s := MarkSlot(v, a);
    assert PlaceMark(w, s)[s - 1] == w[s - 1];
  }

  /** Each option of a stressed word is as long as the word, differs from it, and carries the
      mark directly after one of the other vowels. */
  lemma IncorrectAccentShape(word: string, k: nat)
    requires HasAccent(word) && k < |IncorrectAccents(word)|
    ensures var o := IncorrectAccents(word)[k]; var a := AccentIndex(word);
      && |o| == |word|
      && o != word
      && exists v :: (0 <= v < |word| && IsVowel(word[v]) && v != a && 1 <= MarkSlot(v, a) < |word| &&
                      o[MarkSlot(v, a) - 1] == word[v] && o[MarkSlot(v, a)] == Mark)
  {
    var a := AccentIndex(word);
    var v := Others(VowelIndexes(word), a)[k];
    IncorrectAccentAt(word, k);
    PlacementShape(word, v, IncorrectAccents(word)[k]);
  }

  /** The shape of the option that puts the mark after vowel `v`. */
  lemma PlacementShape(word: string, v: nat, o: string)
    requires HasAccent(word) && v < |word| && IsVowel(word[v]) && v != AccentIndex(word)
    requires o == PlaceMark(WithoutAccent(word, AccentIndex(word)), MarkSlot(v, AccentIndex(word)))
    ensures var a := AccentIndex(word);
      && |o| == |word|
      && o != word
      && exists v :: (0 <= v < |word| && IsVowel(word[v]) && v != a && 1 <= MarkSlot(v, a) < |word| &&
                      o[MarkSlot(v, a) - 1] == word[v] && o[MarkSlot(v, a)] == Mark)
  {
    var a := AccentIndex(word);
    OtherPlacementShape(word, v);
    OtherPlacementDiffers(word, v);
    var s := MarkSlot(v, a);
    assert 0 <= v < |word| && IsVowel(word[v]) && v != a && 1 <= s < |word| && o[s - 1] == word[v] && o[s] == Mark;
  }

  /** The slots of two vowels keep their order. */
  lemma SlotsOrdered(word: string, v1: nat, v2: nat)
    requires HasAccent(word) && v1 < v2 < |word| && IsVowel(word[v2]) && v1 != AccentIndex(word) && v2 != AccentIndex(word)
    ensures var a := AccentIndex(word); var w := WithoutAccent(word, a);
      MarkSlot(v1, a) < MarkSlot(v2, a) <= |w| && w[MarkSlot(v2, a) - 1] != Mark
  {
    SlotFollowsVowel(word, v2);
    MarkIsNotVowel();
  }

  /** No two options of a stressed word are alike. */
  lemma IncorrectAccentsDistinct(word: string, k: nat, l: nat)
    requires HasAccent(word) && k < l < |IncorrectAccents(word)|
    ensures IncorrectAccents(word)[k] != IncorrectAccents(word)[l]
  {
    var a := AccentIndex(word);
    var others := Others(VowelIndexes(word), a);
    IncorrectAccentAt(word, k);
    IncorrectAccentAt(word, l);
    assert others[k] < others[l] by {
      VowelIndexesUpToAscending(word, |word|);
      OthersKept(VowelIndexes(word), a);
    }
    SlotsOrdered(word, others[k], others[l]);
    PlacementsDiffer(WithoutAccent(word, a), MarkSlot(others[k], a), MarkSlot(others[l], a));
  }

  // ---------------------------------------------------------------------------------------
  // Choosing a word

  /** `str.lower()` for the letters the filter meets: ASCII and basic Cyrillic capitals. */
  function LowerChar(c: char): char
  {
    if 'A' <= c <= 'Z' then (c as int + 32) as char
    else if '\U{410}' <= c <= '\U{42F}' then (c as int + 32) as char
    else if '\U{400}' <= c <= '\U{40F}' then (c as int + 80) as char
    else c
  }

  function Lower(s: string): (r: string)
    ensures |r| == |s|
  {
    seq(|s|, k requires 0 <= k < |s| => LowerChar(s[k]))
  }

  /** A fetched dictionary word, its meaning, and its two frequency ranks as looked up (None
      when the lookup failed). */
  datatype WordCandidate = WordCandidate(
    word: string,
    meaning: string,
    newsRank: Option<int>,
    wikipediaRank: Option<int>)

  datatype ChooseAccentExercise = ChooseAccentExercise(options: seq<string>, answer: string)

  datatype GenerationError = NoWordsFetched | NoSuitableWord

  /** The first filter: stressed, 2 to 5 vowels, and a meaning not marked as obsolete
      ('остар.') or specialist ('спец.'). */
  predicate PassesInitialValidation(c: WordCandidate)
  {
    && HasAccent(c.word)
    && MinVowels <= |VowelIndexes(c.word)| <= MaxVowels
    && |c.meaning| >= MinMeaningLen
    && !Contains(Lower(c.meaning), "остар.")
    && !Contains(Lower(c.meaning), "спец.")
  }

  /** Both ranks are known and common enough. */
  predicate CommonEnough(c: WordCandidate)
  {
    && c.newsRank.Some? && c.wikipediaRank.Some?
    && c.newsRank.value <= MinWordRank && c.wikipediaRank.value <= MinWordRank
  }

  predicate Suitable(c: WordCandidate)
  {
    PassesInitialValidation(c) && CommonEnough(c) && |IncorrectAccents(c.word)| > 0
  }

  /** The first suitable candidate at or after `from`, or -1. */
  function SuitableIndexFrom(cs: seq<WordCandidate>, from: nat): (r: int)
    ensures r == -1 || from <= r < |cs|
    ensures r >= 0 ==> Suitable(cs[r]) && forall j :: from <= j < r ==> !Suitable(cs[j])
    ensures r == -1 ==> forall j :: from <= j < |cs| ==> !Suitable(cs[j])
    decreases |cs| - from
  {
    if from >= |cs| then -1
    else if Suitable(cs[from]) then from
    else SuitableIndexFrom(cs, from + 1)
  }

  /** `generate`: an empty fetch is an error; otherwise the first suitable word becomes the
      exercise, with the word itself first among the options and as the answer, and no
      suitable word is an error too. */
  function Generate(cs: seq<WordCandidate>): (r: Result<ChooseAccentExercise, GenerationError>)
    ensures |cs| == 0 <==> r == Err(NoWordsFetched)
    ensures r == Err(NoSuitableWord) <==> |cs| > 0 && forall k :: 0 <= k < |cs| ==> !Suitable(cs[k])
    ensures r.Ok? ==> exists k :: (0 <= k < |cs| && Suitable(cs[k]) &&
      (forall j :: 0 <= j < k ==> !Suitable(cs[j])) &&
      r.value == ChooseAccentExercise([cs[k].word] + IncorrectAccents(cs[k].word), cs[k].word))
  {
    if |cs| == 0 then Err(NoWordsFetched)
    else
      var k := SuitableIndexFrom(cs, 0);
      if k < 0 then Err(NoSuitableWord)
      else Ok(ChooseAccentExercise([cs[k].word] + IncorrectAccents(cs[k].word), cs[k].word))
  }

  /** A word that passes the first filter always has 1 to 4 wrong options, so the "no
      options" skip never fires for it and an exercise has 2 to 5 options in all, the
      correct one first and different from every other. */
  lemma GeneratedExerciseOptions(c: WordCandidate)
    requires PassesInitialValidation(c)
    ensures 1 <= |IncorrectAccents(c.word)| <= 4
    ensures var options := [c.word] + IncorrectAccents(c.word);
      2 <= |options| <= 5 && forall k :: 1 <= k < |options| ==> options[k] != options[0]
  {
    IncorrectAccentsCount(c.word);
    var options := [c.word] + IncorrectAccents(c.word);
    forall k | 1 <= k < |options| ensures options[k] != options[0] {
      IncorrectAccentShape(c.word, k - 1);
    }
  }
}
