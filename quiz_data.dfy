/**
 * Values shared by the server, the quiz and the admin client: quiz questions,
 * the insertion-ordered category maps they are stored in, and the few string
 * operations the JavaScript applies to them.
 */
module QuizData {

  datatype Option<T> = None | Some(value: T)

  /**
   * One quiz question as stored in quizData.json. Optional fields are None
   * when absent (an absent field and a JSON null are not told apart).
   */
  datatype Question = Question(
    options: seq<string>,
    correctAnswer: string,
    image: Option<string>,
    question: Option<string>,
    explanation: Option<string>,
    streetViewUrl: Option<string>)

  /**
   * A JavaScript object used as a dictionary: its keys in insertion order
   * (the order Object.keys reports for non-numeric keys) and the entries.
   */
  datatype OrderedMap<K(==,!new), V> = OrderedMap(keys: seq<K>, entries: map<K, V>)
  {
    ghost predicate Valid() {
      (forall i, j :: 0 <= i < j < |keys| ==> keys[i] != keys[j]) &&
      (forall k :: k in entries <==> k in keys)
    }

    /** `obj[k] = v`: an existing key keeps its place, a new key goes last. */
    function Put(k: K, v: V): (r: OrderedMap<K, V>)
      ensures Valid() ==> r.Valid()
      ensures r.entries == entries[k := v]
      ensures forall x :: x in keys ==> x in r.keys
      ensures k in entries ==> r.keys == keys
      ensures k !in entries ==> r.keys == keys + [k]
    {
      if k in entries then OrderedMap(keys, entries[k := v])
      else OrderedMap(keys + [k], entries[k := v])
    }

    /** `delete obj[k]`: the key disappears from both the order and the map. */
    function Remove(k: K): (r: OrderedMap<K, V>)
      ensures Valid() ==> r.Valid()
      ensures r.entries == entries - {k}
      ensures forall x :: x in r.keys <==> x in keys && x != k
    {
      OrderedMap(Without(keys, k), entries - {k})
    }
  }

  /** Writing a key twice leaves it as writing it once with the second value. */
  lemma PutTwice<K(!new), V>(m: OrderedMap<K, V>, k: K, v: V, w: V)
    ensures m.Put(k, v).Put(k, w) == m.Put(k, w)
  {
    assert m.entries[k := v][k := w] == m.entries[k := w];
  }

  /** The sequence with every occurrence of `x` dropped, order kept. */
  function Without<K(==,!new)>(s: seq<K>, x: K): (r: seq<K>)
    ensures forall y :: y in r <==> y in s && y != x
    ensures (forall i, j :: 0 <= i < j < |s| ==> s[i] != s[j]) ==>
              (forall i, j :: 0 <= i < j < |r| ==> r[i] != r[j])
  {
    if |s| == 0 then []
    else if s[0] == x then Without(s[1..], x)
    else
      var rest := Without(s[1..], x);
      assert (forall i, j :: 0 <= i < j < |s| ==> s[i] != s[j]) ==> s[0] !in s[1..];
      [s[0]] + rest
  }

  /** Dropping a value the sequence does not hold changes nothing. */
  lemma {:induction false} WithoutAbsent<K(!new)>(s: seq<K>, x: K)
    requires x !in s
    ensures Without(s, x) == s
  {
    if |s| > 0 {
      assert x !in s[1..];
      WithoutAbsent(s[1..], x);
      assert s == [s[0]] + s[1..];
    }
  }

  /** `delete obj[k]` for a key the object does not have is a no-op. */
  lemma RemoveAbsent<K(!new), V>(m: OrderedMap<K, V>, k: K)
    requires m.Valid() && k !in m.entries
    ensures m.Remove(k) == m
  {
    WithoutAbsent(m.keys, k);
    assert m.entries - {k} == m.entries;
  }

  /** A category map: category name to its list of questions. */
  type Catalog = OrderedMap<string, seq<Question>>

  function EmptyCatalog(): (r: Catalog)
    ensures r.Valid() && r.keys == [] && r.entries == map[]
  {
    OrderedMap([], map[])
  }

  /**
   * The quiz document as the client holds it: the unified `questions` map and
   * the two legacy maps; None when the top-level key is absent.
   */
  datatype QuizDocument = QuizDocument(
    questions: Option<Catalog>,
    imageBased: Option<Catalog>,
    timeLimited: Option<Catalog>)

  /** `quizData[name]` for the three known top-level keys; None for any other. */
  function TopLevel(d: QuizDocument, name: string): (r: Option<Catalog>)
    ensures name != "questions" && name != "image-based" && name != "time-limited" ==> r.None?
  {
    if name == "questions" then d.questions
    else if name == "image-based" then d.imageBased
    else if name == "time-limited" then d.timeLimited
    else None
  }

  /** The legacy data source a quiz mode reads: time-limited quizzes reuse the image-based questions. */
  function DataSourceFor(mode: string): (r: string)
    ensures mode == "time-limited" ==> r == "image-based"
    ensures mode != "time-limited" ==> r == mode
  {
    if mode == "time-limited" then "image-based" else mode
  }

  // ----- strings -----

  function LowerChar(c: char): char {
    if 'A' <= c <= 'Z' then (c as int + 32) as char else c
  }

  function UpperChar(c: char): char {
    if 'a' <= c <= 'z' then (c as int - 32) as char else c
  }

  /** `toLowerCase()` restricted to the ASCII letters. */
  function Lower(s: string): (r: string)
    ensures |r| == |s|
    ensures forall i :: 0 <= i < |s| ==> r[i] == LowerChar(s[i])
  {
    if |s| == 0 then "" else [LowerChar(s[0])] + Lower(s[1..])
  }

  /** `toUpperCase()` restricted to the ASCII letters. */
  function Upper(s: string): (r: string)
    ensures |r| == |s|
    ensures forall i :: 0 <= i < |s| ==> r[i] == UpperChar(s[i])
  {
    if |s| == 0 then "" else [UpperChar(s[0])] + Upper(s[1..])
  }

  predicate StartsWith(s: string, prefix: string) {
    |prefix| <= |s| && s[..|prefix|] == prefix
  }

  /** `name.toLowerCase() === 'all'`: the synthetic category, in any letter case. */
  predicate IsAllCategory(name: string) {
    Lower(name) == "all"
  }

  /** The rejection of "all" is case-insensitive and catches nothing else. */
  lemma IsAllCategoryExactly(name: string)
    ensures IsAllCategory(name) <==>
      |name| == 3 && name[0] in "aA" && name[1] in "lL" && name[2] in "lL"
  {
    if IsAllCategory(name) {
      assert Lower(name)[0] == 'a' && Lower(name)[1] == 'l' && Lower(name)[2] == 'l';
    }
    if |name| == 3 && name[0] in "aA" && name[1] in "lL" && name[2] in "lL" {
      assert Lower(name) == "all";
    }
  }

  // ----- question identity -----

  /** `value || fallback` for an optional string: the empty string is falsy. */
  function OrElse(v: Option<string>, fallback: string): (r: string)
    ensures v.Some? && v.value != "" ==> r == v.value
    ensures v.None? || v.value == "" ==> r == fallback
  {
    if v.Some? && v.value != "" then v.value else fallback
  }

  predicate HasImage(q: Question) {
    q.image.Some? && q.image.value != ""
  }

  /**
   * The string the server deduplicates the "all" category by: the image (or
   * "no-image") and the correct answer joined by an underscore. It is a plain
   * concatenation, so different pairs can collide.
   */
  function AllKey(q: Question): string {
    OrElse(q.image, "no-image") + "_" + q.correctAnswer
  }

  /** Two questions with distinct (image, answer) pairs that share one key. */
  lemma AllKeyCollides()
    ensures var a := Question(["x"], "b_c", Some("a"), None, None, None);
            var b := Question(["x"], "c", Some("a_b"), None, None, None);
            AllKey(a) == AllKey(b) && a.image != b.image && a.correctAnswer != b.correctAnswer
  {
  }

  /**
   * The server's structural match between copies of one question in
   * different maps: same correct answer, same image, same option list.
   */
  predicate SameQuestion(q: Question, anchor: Question) {
    q.correctAnswer == anchor.correctAnswer && q.image == anchor.image && q.options == anchor.options
  }

  /** `findIndex` of the first structural match of `anchor`, None for -1. */
  function FirstMatch(qs: seq<Question>, anchor: Question): (r: Option<nat>)
    ensures r.Some? ==> r.value < |qs| && SameQuestion(qs[r.value], anchor)
    ensures r.Some? ==> forall j :: 0 <= j < r.value ==> !SameQuestion(qs[j], anchor)
    ensures r.None? <==> forall j :: 0 <= j < |qs| ==> !SameQuestion(qs[j], anchor)
  {
    if |qs| == 0 then None
    else if SameQuestion(qs[0], anchor) then Some(0)
    else match FirstMatch(qs[1..], anchor)
      case None => None
      case Some(i) => Some(i + 1)
  }
}
