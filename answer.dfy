/**
 * The learner-answer value objects: the four Answer kinds, the canonical answer text used as
 * a cache and grouping key, and the dictionary form they are stored in.
 */
module Answers {
  import opened Wrappers
  import opened Strings

  /** One submitted answer. A multiple-choice answer is a set of option indices. */
  datatype Answer =
    | SentenceConstruction(sentences: seq<string>)
    | MultipleChoice(optionIndex: set<int>)
    | FillInTheBlank(words: seq<string>)
    | Translation(translations: seq<string>)

  /** A JSON-like value, the payload of a stored answer dictionary. */
  datatype Value = Null | Str(s: string) | Int(i: int) | List(items: seq<Value>)

  type Dict = map<string, Value>

  /** Why a dictionary could not be turned back into an Answer (all ValueError in the source). */
  datatype AnswerError =
    | MissingType
    | UnknownType(name: string)
    | NotAList(field: string)
    | BadElement(field: string)

  const Separator: string := ";"

  // ---------------------------------------------------------------------------------------
  // Python's string ordering and `sorted` over a set

  /** `a <= b` for Python strings: code-point lexicographic order, a prefix first. */
  predicate LexLe(a: string, b: string)
    decreases |a|
  {
    |a| == 0 || (|b| > 0 && (a[0] < b[0] || (a[0] == b[0] && LexLe(a[1..], b[1..]))))
  }

  lemma {:induction false} LexLeTotal(a: string, b: string)
    ensures LexLe(a, b) || LexLe(b, a)
    decreases |a|
  {
    if |a| > 0 && |b| > 0 && a[0] == b[0] {
      LexLeTotal(a[1..], b[1..]);
    }
  }

  lemma {:induction false} LexLeAntisymmetric(a: string, b: string)
    requires LexLe(a, b) && LexLe(b, a)
    ensures a == b
    decreases |a|
  {
    if |a| > 0 {
      LexLeAntisymmetric(a[1..], b[1..]);
      assert a == [a[0]] + a[1..];
      assert b == [b[0]] + b[1..];
    }
  }

  lemma {:induction false} LexLeTransitive(a: string, b: string, c: string)
    requires LexLe(a, b) && LexLe(b, c)
    ensures LexLe(a, c)
    decreases |a|
  {
    if |a| > 0 && a[0] == b[0] && b[0] == c[0] {
      LexLeTransitive(a[1..], b[1..], c[1..]);
    }
  }

  predicate IsLexMin(m: string, s: set<string>)
  {
    m in s && forall x :: x in s ==> LexLe(m, x)
  }

  lemma {:induction false} LexLeReflexive(a: string)
    ensures LexLe(a, a)
    decreases |a|
  {
    if |a| > 0 {
      LexLeReflexive(a[1..]);
    }
  }

  lemma {:induction false} LexMinExists(s: set<string>)
    requires s != {}
    ensures exists m :: IsLexMin(m, s)
    decreases |s|
  {
    var x :| x in s;
    LexLeReflexive(x);
    if s == {x} {
      assert IsLexMin(x, s);
    } else {
      IntroLexMin(s, x);
    }
  }

  lemma {:induction false} IntroLexMin(s: set<string>, x: string)
    requires x in s && s != {x}
    ensures exists m :: IsLexMin(m, s)
    decreases |s|, 0
  {
    LexLeReflexive(x);
    LexMinExists(s - {x});
    var m :| IsLexMin(m, s - {x});
    LexLeTotal(m, x);
    var least := if LexLe(m, x) then m else x;
    forall y | y in s ensures LexLe(least, y) {
      if y == x {
      } else {
        assert y in s - {x};
        if least == x {
          LexLeTransitive(x, m, y);
        }
      }
    }
    assert IsLexMin(least, s);
  }

  lemma LexMinUnique(s: set<string>)
    ensures forall m1, m2 :: IsLexMin(m1, s) && IsLexMin(m2, s) ==> m1 == m2
  {
    forall m1, m2 | IsLexMin(m1, s) && IsLexMin(m2, s) ensures m1 == m2 {
      LexLeAntisymmetric(m1, m2);
    }
  }

  predicate LexSorted(xs: seq<string>)
  {
    forall i, j :: 0 <= i < j < |xs| ==> LexLe(xs[i], xs[j])
  }

  /** `sorted(s)` for a set of strings. */
  function SortedStrings(s: set<string>): (r: seq<string>)
    ensures |r| == |s|
    ensures forall x :: x in s <==> x in r
    ensures LexSorted(r)
    decreases |s|
  {
    if s == {} then []
    else
      LexMinExists(s);
      LexMinUnique(s);
      var m :| IsLexMin(m, s);
      [m] + SortedStrings(s - {m})
  }

  /** A set of integers with no element is empty. */
  lemma EmptyIfNoInt(s: set<int>)
    ensures (forall x :: x !in s) ==> s == {}
  {
    if forall x :: x !in s {
      assert s == {};
    }
  }

  predicate IsIntMin(m: int, s: set<int>)
  {
    m in s && forall x :: x in s ==> m <= x
  }

  lemma {:induction false} IntMinExists(s: set<int>)
    requires s != {}
    ensures exists m :: IsIntMin(m, s)
    decreases |s|
  {
    EmptyIfNoInt(s);
    var x :| x in s;
    if s == {x} {
      assert IsIntMin(x, s);
    } else {
      IntMinExists(s - {x});
      var m :| IsIntMin(m, s - {x});
      var least := if m <= x then m else x;
      forall y | y in s ensures least <= y {
        if y != x {
          assert y in s - {x};
        }
      }
      assert IsIntMin(least, s);
    }
  }

  /** `list(s)` for a set of indices; the model lists them in ascending order. */
  function IntSetToList(s: set<int>): (r: seq<int>)
    ensures |r| == |s|
    ensures forall x :: x in s <==> x in r
    decreases |s|
  {
    if s == {} then []
    else
      IntMinExists(s);
      var m :| IsIntMin(m, s);
      [m] + IntSetToList(s - {m})
  }

  // ---------------------------------------------------------------------------------------
  // get_answer_text

  /** The decimal texts of a set of option indices. */
  function IndexTexts(s: set<int>): set<string>
  {
    set i | i in s :: IntToString(i)
  }

  /** The canonical answer text: the list items joined with ';'; for multiple choice, the
      indices as text, sorted as strings, joined with ';'. */
  function GetAnswerText(a: Answer): string
  {
    match a
    case SentenceConstruction(xs) => Join(xs, Separator)
    case MultipleChoice(s) => Join(SortedStrings(IndexTexts(s)), Separator)
    case FillInTheBlank(xs) => Join(xs, Separator)
    case Translation(xs) => Join(xs, Separator)
  }

  /** The text items of an answer, in the order they are joined. */
  function TextItems(a: Answer): seq<string>
  {
    match a
    case SentenceConstruction(xs) => xs
    case MultipleChoice(s) => SortedStrings(IndexTexts(s))
    case FillInTheBlank(xs) => xs
    case Translation(xs) => xs
  }

  /** Splitting the answer text on ';' gives back the items, as long as there is at least one
      and none of them holds a ';'. */
  lemma AnswerTextSplits(a: Answer)
    requires |TextItems(a)| > 0
    requires forall k :: 0 <= k < |TextItems(a)| ==> ';' !in TextItems(a)[k]
    ensures Split(GetAnswerText(a), Separator) == TextItems(a)
  {
    SplitJoin(TextItems(a), Separator);
  }

  /** A multiple-choice text is exactly the decimal indices, each once, in string order,
      separated by ';'. */
  lemma MultipleChoiceText(s: set<int>)
    requires s != {}
    ensures var parts := Split(GetAnswerText(MultipleChoice(s)), Separator);
      && LexSorted(parts)
      && |parts| == |s|
      && (forall i :: i in s ==> IntToString(i) in parts)
      && (forall p :: p in parts ==> exists i :: i in s && p == IntToString(i))
  {
    var texts := IndexTexts(s);
    EmptyIfNoInt(s);
    var i0 :| i0 in s;
    assert IntToString(i0) in texts;
    var items := SortedStrings(texts);
    forall k | 0 <= k < |items| ensures ';' !in items[k] {
      assert items[k] in texts;
      var i :| i in s && items[k] == IntToString(i);
      assert forall c :: c in items[k] ==> IsDigit(c) || c == '-';
    }
    SplitJoin(items, Separator);
    IntToStringInjective(s);
  }

  lemma {:induction false} IntToStringInjective(s: set<int>)
    ensures |IndexTexts(s)| == |s|
    decreases |s|
  {
    if s != {} {
      EmptyIfNoInt(s);
      var x :| x in s;
      IntToStringInjective(s - {x});
      assert IndexTexts(s) == IndexTexts(s - {x}) + {IntToString(x)};
      if IntToString(x) in IndexTexts(s - {x}) {
        var y :| y in s - {x} && IntToString(y) == IntToString(x);
        IntStringRoundTrip(x);
        IntStringRoundTrip(y);
      }
    }
  }

  // ---------------------------------------------------------------------------------------
  // to_dict / from_dict

  function StrList(xs: seq<string>): (v: Value)
    ensures v.List? && |v.items| == |xs|
  {
    List(seq(|xs|, k requires 0 <= k < |xs| => Str(xs[k])))
  }

  function IntList(xs: seq<int>): (v: Value)
    ensures v.List? && |v.items| == |xs|
  {
    List(seq(|xs|, k requires 0 <= k < |xs| => Int(xs[k])))
  }

  /** The dictionary form: a 'type' tag naming the kind and the kind's list field. */
  function ToDict(a: Answer): Dict
  {
    match a
    case SentenceConstruction(xs) =>
      map["type" := Str("SentenceConstructionAnswer"), "sentences" := StrList(xs)]
    case MultipleChoice(s) =>
      map["type" := Str("MultipleChoiceAnswer"), "option_index" := IntList(IntSetToList(s))]
    case FillInTheBlank(xs) =>
      map["type" := Str("FillInTheBlankAnswer"), "words" := StrList(xs)]
    case Translation(xs) =>
      map["type" := Str("TranslationAnswer"), "translations" := StrList(xs)]
  }

  /** The list of strings stored under `field`. */
  function GetStrings(d: Dict, field: string): (r: Result<seq<string>, AnswerError>)
    ensures r.Ok? ==> field in d && d[field].List? && |r.value| == |d[field].items|
  {
    if field !in d || !d[field].List? then Err(NotAList(field))
    else
      var items := d[field].items;
      if forall k :: 0 <= k < |items| ==> items[k].Str? then
        Ok(seq(|items|, k requires 0 <= k < |items| && items[k].Str? => items[k].s))
      else Err(BadElement(field))
  }

  /** The set of integers stored as a list under `field`. */
  function GetIntSet(d: Dict, field: string): (r: Result<set<int>, AnswerError>)
    ensures r.Ok? ==> field in d && d[field].List?
  {
    if field !in d || !d[field].List? then Err(NotAList(field))
    else
      var items := d[field].items;
      if forall k :: 0 <= k < |items| ==> items[k].Int? then
        var ints := seq(|items|, k requires 0 <= k < |items| && items[k].Int? => items[k].i);
        Ok(set x | x in ints)
      else Err(BadElement(field))
  }

  function Wrap(r: Result<seq<string>, AnswerError>, make: seq<string> -> Answer): Result<Answer, AnswerError>
  {
    match r
    case Ok(xs) => Ok(make(xs))
    case Err(e) => Err(e)
  }

  /** Rebuilds an Answer from its dictionary form, dispatching on the 'type' tag. */
  function FromDict(d: Dict): (r: Result<Answer, AnswerError>)
  {
    if "type" !in d || !d["type"].Str? then Err(MissingType)
    else
      var tag := d["type"].s;
      if tag == "SentenceConstructionAnswer" then
        Wrap(GetStrings(d, "sentences"), xs => SentenceConstruction(xs))
      else if tag == "MultipleChoiceAnswer" then
        match GetIntSet(d, "option_index")
        case Ok(s) => Ok(MultipleChoice(s))
        case Err(e) => Err(e)
      else if tag == "FillInTheBlankAnswer" then
        Wrap(GetStrings(d, "words"), xs => FillInTheBlank(xs))
      else if tag == "TranslationAnswer" then
        Wrap(GetStrings(d, "translations"), xs => Translation(xs))
      else Err(UnknownType(tag))
  }

  lemma StringsRoundTrip(xs: seq<string>, d: Dict, field: string)
    requires field in d && d[field] == StrList(xs)
    ensures GetStrings(d, field) == Ok(xs)
  {
    var items := d[field].items;
    assert forall k :: 0 <= k < |items| ==> items[k] == Str(xs[k]);
    assert seq(|items|, k requires 0 <= k < |items| && items[k].Str? => items[k].s) == xs;
  }

  lemma IntSetRoundTrip(s: set<int>, d: Dict, field: string)
    requires field in d && d[field] == IntList(IntSetToList(s))
    ensures GetIntSet(d, field) == Ok(s)
  {
    var xs := IntSetToList(s);
    var items := d[field].items;
    assert forall k :: 0 <= k < |items| ==> items[k] == Int(xs[k]);
    var ints := seq(|items|, k requires 0 <= k < |items| && items[k].Int? => items[k].i);
    assert ints == xs;
    assert (set x | x in xs) == s;
  }

  /** Every Answer survives a trip through its dictionary form. */
  lemma DictRoundTrip(a: Answer)
    ensures FromDict(ToDict(a)) == Ok(a)
  {
    var d := ToDict(a);
    match a
    case SentenceConstruction(xs) => StringsRoundTrip(xs, d, "sentences");
    case MultipleChoice(s) => IntSetRoundTrip(s, d, "option_index");
    case FillInTheBlank(xs) => StringsRoundTrip(xs, d, "words");
    case Translation(xs) => StringsRoundTrip(xs, d, "translations");
  }

  /** The four ways a dictionary is refused: no string 'type', an unknown 'type', and a
      kind's field that is not a list. */
  lemma FromDictErrors(d: Dict)
    ensures ("type" !in d || !d["type"].Str?) ==> FromDict(d) == Err(MissingType)
    ensures "type" in d && d["type"].Str? &&
            d["type"].s !in {"SentenceConstructionAnswer", "MultipleChoiceAnswer",
                             "FillInTheBlankAnswer", "TranslationAnswer"}
            ==> FromDict(d) == Err(UnknownType(d["type"].s))
    ensures "type" in d && d["type"] == Str("SentenceConstructionAnswer") &&
            ("sentences" !in d || !d["sentences"].List?)
            ==> FromDict(d) == Err(NotAList("sentences"))
    ensures "type" in d && d["type"] == Str("MultipleChoiceAnswer") &&
            ("option_index" !in d || !d["option_index"].List?)
            ==> FromDict(d) == Err(NotAList("option_index"))
  {
  }
}
