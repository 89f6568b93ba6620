/**
 * The Express server's question store (server.js): the three category maps
 * of quizData.json, the synthetic "all" category that is recomputed after
 * every change, the five editing endpoints and the duplicate-request guard.
 *
 * Reading and writing quizData.json, writing and unlinking image files, the
 * clock and the random file suffix are outside the model: each request gets
 * an `Env` saying what the outside world answered.
 */
module Server {
  import opened QuizData

  // ===================================================================
  // The synthetic "all" category
  // ===================================================================

  /** The questions category `name` contributes to "all": none from "all" itself. */
  function Section(name: string, lists: map<string, seq<Question>>): seq<Question> {
    if name == "all" || name !in lists then [] else lists[name]
  }

  /** Every question of every category but "all", in category order. */
  function Pool(names: seq<string>, lists: map<string, seq<Question>>): seq<Question> {
    if |names| == 0 then []
    else Pool(names[..|names| - 1], lists) + Section(names[|names| - 1], lists)
  }

  function KeysOf(qs: seq<Question>): set<string> {
    set q | q in qs :: AllKey(q)
  }

  lemma KeysOfAppend(qs: seq<Question>, q: Question)
    ensures KeysOf(qs + [q]) == KeysOf(qs) + {AllKey(q)}
  {
    assert q in qs + [q];
    forall x | x in qs ensures x in qs + [q] { }
  }

  /**
   * The deduplication of updateAllCategory: walk the questions in order and
   * keep one whose key has not been seen yet.
   */
  function DedupByKey(qs: seq<Question>): seq<Question>
  {
    if |qs| == 0 then []
    else
      var d := DedupByKey(qs[..|qs| - 1]);
      if AllKey(qs[|qs| - 1]) in KeysOf(d) then d else d + [qs[|qs| - 1]]
  }

  /**
   * The deduplicated list has exactly the keys of the input, no key twice,
   * and only questions from the input.
   */
  lemma {:induction false} DedupByKeyProperties(qs: seq<Question>)
    ensures KeysOf(DedupByKey(qs)) == KeysOf(qs)
    ensures forall i, j :: 0 <= i < j < |DedupByKey(qs)| ==> AllKey(DedupByKey(qs)[i]) != AllKey(DedupByKey(qs)[j])
    ensures forall q :: q in DedupByKey(qs) ==> q in qs
  {
    if |qs| > 0 {
      var p := qs[..|qs| - 1];
      var q := qs[|qs| - 1];
      DedupByKeyProperties(p);
      var d := DedupByKey(p);
      assert qs == p + [q];
      KeysOfAppend(p, q);
      KeysOfAppend(d, q);
      if AllKey(q) !in KeysOf(d) {
        assert forall i :: 0 <= i < |d| ==> d[i] in d;
      }
    }
  }

  /** The contents updateAllCategory gives "all": the deduplicated pool of the unified map. */
  function AllOf(c: Catalog): seq<Question> {
    DedupByKey(Pool(c.keys, c.entries))
  }

  /** Position of the first question with key `key`; |qs| when there is none. */
  function FirstIndex(qs: seq<Question>, key: string): (r: nat)
    ensures r <= |qs|
    ensures r < |qs| ==> AllKey(qs[r]) == key
    ensures forall j :: 0 <= j < r ==> AllKey(qs[j]) != key
  {
    if |qs| == 0 then 0
    else if AllKey(qs[0]) == key then 0
    else 1 + FirstIndex(qs[1..], key)
  }

  lemma FirstIndexPresent(qs: seq<Question>, key: string)
    requires key in KeysOf(qs)
    ensures FirstIndex(qs, key) < |qs|
  {
    var q :| q in qs && AllKey(q) == key;
    var j :| 0 <= j < |qs| && qs[j] == q;
  }

  lemma FirstIndexExtend(p: seq<Question>, q: Question, key: string)
    ensures key in KeysOf(p) ==> FirstIndex(p + [q], key) == FirstIndex(p, key)
    ensures key !in KeysOf(p) && AllKey(q) == key ==> FirstIndex(p + [q], key) == |p|
  {
    var a := FirstIndex(p + [q], key);
    if key in KeysOf(p) {
      FirstIndexPresent(p, key);
      var b := FirstIndex(p, key);
      assert (p + [q])[b] == p[b];
    } else if AllKey(q) == key {
      assert (p + [q])[|p|] == q;
    }
  }

  /** Every member of `r` is the first question of `qs` with its key. */
  ghost predicate KeepsFirst(qs: seq<Question>, r: seq<Question>) {
    forall i :: 0 <= i < |r| ==>
      FirstIndex(qs, AllKey(r[i])) < |qs| && qs[FirstIndex(qs, AllKey(r[i]))] == r[i]
  }

  /** The members of `r` appear in the order of their first occurrences in `qs`. */
  ghost predicate InFirstOccurrenceOrder(qs: seq<Question>, r: seq<Question>) {
    forall i, j :: 0 <= i < j < |r| ==> FirstIndex(qs, AllKey(r[i])) < FirstIndex(qs, AllKey(r[j]))
  }

  lemma DedupStep(p: seq<Question>, q: Question, d: seq<Question>)
    requires KeysOf(d) == KeysOf(p)
    requires KeepsFirst(p, d) && InFirstOccurrenceOrder(p, d)
    ensures AllKey(q) in KeysOf(d) ==> KeepsFirst(p + [q], d) && InFirstOccurrenceOrder(p + [q], d)
    ensures AllKey(q) !in KeysOf(d) ==>
      KeepsFirst(p + [q], d + [q]) && InFirstOccurrenceOrder(p + [q], d + [q])
  {
    var qs := p + [q];
    forall i | 0 <= i < |d|
      ensures FirstIndex(qs, AllKey(d[i])) == FirstIndex(p, AllKey(d[i])) < |p|
      ensures qs[FirstIndex(qs, AllKey(d[i]))] == d[i]
    {
      assert d[i] in d;
      FirstIndexExtend(p, q, AllKey(d[i]));
    }
    if AllKey(q) !in KeysOf(d) {
      FirstIndexExtend(p, q, AllKey(q));
      var r := d + [q];
      forall i | 0 <= i < |r|
        ensures FirstIndex(qs, AllKey(r[i])) < |qs| && qs[FirstIndex(qs, AllKey(r[i]))] == r[i]
      {
        if i < |d| { assert r[i] == d[i]; } else { assert r[i] == q; }
      }
      forall i, j | 0 <= i < j < |r|
        ensures FirstIndex(qs, AllKey(r[i])) < FirstIndex(qs, AllKey(r[j]))
      {
        assert r[i] == d[i];
        if j < |d| { assert r[j] == d[j]; } else { assert r[j] == q; }
      }
    }
  }

  /**
   * "all" keeps the first occurrence of every key, and keeps the first
   * occurrences in the order they appear in the pool.
   */
  lemma {:induction false} DedupKeepsFirstOccurrences(qs: seq<Question>)
    ensures KeepsFirst(qs, DedupByKey(qs))
    ensures InFirstOccurrenceOrder(qs, DedupByKey(qs))
  {
    if |qs| > 0 {
      var p := qs[..|qs| - 1];
      var q := qs[|qs| - 1];
      assert qs == p + [q];
      DedupKeepsFirstOccurrences(p);
      DedupByKeyProperties(p);
      DedupStep(p, q, DedupByKey(p));
    }
  }

  lemma PoolIgnoresAll(names: seq<string>, lists: map<string, seq<Question>>, v: seq<Question>)
    ensures Pool(names, lists["all" := v]) == Pool(names, lists)
    ensures Pool(names + ["all"], lists["all" := v]) == Pool(names, lists)
  {
    if |names| > 0 {
      PoolIgnoresAll(names[..|names| - 1], lists, v);
    }
    assert (names + ["all"])[..|names|] == names;
  }

  /** Whatever "all" holds, it does not feed its own recomputation. */
  lemma AllOfIgnoresAll(c: Catalog, v: seq<Question>)
    ensures AllOf(c.Put("all", v)) == AllOf(c)
  {
    PoolIgnoresAll(c.keys, c.entries, v);
  }

  lemma {:induction false} PoolCovers(names: seq<string>, lists: map<string, seq<Question>>, n: string, q: Question)
    requires n in names && n != "all" && n in lists && q in lists[n]
    ensures q in Pool(names, lists)
  {
    var last := names[|names| - 1];
    if n == last {
      assert q in Section(last, lists);
    } else {
      assert n in names[..|names| - 1] by {
        var i :| 0 <= i < |names| && names[i] == n;
        assert i < |names| - 1;
        assert names[..|names| - 1][i] == n;
      }
      PoolCovers(names[..|names| - 1], lists, n, q);
    }
  }

  lemma {:induction false} PoolDrawsFromCategories(names: seq<string>, lists: map<string, seq<Question>>, q: Question)
    requires q in Pool(names, lists)
    ensures exists n :: n in names && n != "all" && n in lists && q in lists[n]
  {
    var last := names[|names| - 1];
    var rest := names[..|names| - 1];
    if q in Pool(rest, lists) {
      PoolDrawsFromCategories(rest, lists, q);
      var n :| n in rest && n != "all" && n in lists && q in lists[n];
      assert n in names by {
        var i :| 0 <= i < |rest| && rest[i] == n;
        assert names[i] == n;
      }
    } else {
      assert q in Section(last, lists);
      assert last in names;
    }
  }

  /** Every question of a real category has its key represented in `all`. */
  ghost predicate CoversCategories(c: Catalog, all: seq<Question>) {
    forall n, q :: n in c.entries && n != "all" && q in c.entries[n] ==> AllKey(q) in KeysOf(all)
  }

  /** Every member of `all` is a question of some real category. */
  ghost predicate DrawnFromCategories(c: Catalog, all: seq<Question>) {
    forall a :: a in all ==> exists n :: n in c.entries && n != "all" && a in c.entries[n]
  }

  /**
   * The contents of "all": no two questions share a key, every question of a
   * real category has its key represented, and every member of "all" comes
   * from a real category.
   */
  lemma AllCategoryContents(c: Catalog)
    requires c.Valid()
    ensures forall i, j :: 0 <= i < j < |AllOf(c)| ==> AllKey(AllOf(c)[i]) != AllKey(AllOf(c)[j])
    ensures CoversCategories(c, AllOf(c))
    ensures DrawnFromCategories(c, AllOf(c))
  {
    var pool := Pool(c.keys, c.entries);
    var all := AllOf(c);
    DedupByKeyProperties(pool);
    forall n, q | n in c.entries && n != "all" && q in c.entries[n]
      ensures AllKey(q) in KeysOf(all)
    {
      PoolCovers(c.keys, c.entries, n, q);
      assert AllKey(q) in KeysOf(pool);
    }
    forall a | a in all
      ensures exists n :: n in c.entries && n != "all" && a in c.entries[n]
    {
      assert a in pool;
      PoolDrawsFromCategories(c.keys, c.entries, a);
    }
  }

  // ===================================================================
  // The document and its edits, as values
  // ===================================================================

  /** The three category maps of quizData.json; an absent map reads as an empty one. */
  datatype Document = Document(questions: Catalog, imageBased: Catalog, timeLimited: Catalog)
  {
    ghost predicate Valid() {
      questions.Valid() && imageBased.Valid() && timeLimited.Valid()
    }
  }

  /** `map[cat] || []`. */
  function ListOf(c: Catalog, cat: string): seq<Question> {
    if cat in c.entries then c.entries[cat] else []
  }

  /** The result of updateAllCategory: "all" set to AllOf(questions) in all three maps. */
  function Synced(d: Document): Document {
    var all := AllOf(d.questions);
    Document(d.questions.Put("all", all), d.imageBased.Put("all", all), d.timeLimited.Put("all", all))
  }

  /** The three "all" lists exist, agree with each other, and agree with the unified map. */
  ghost predicate InSync(d: Document) {
    "all" in d.questions.entries && "all" in d.imageBased.entries && "all" in d.timeLimited.entries &&
    d.questions.entries["all"] == AllOf(d.questions) &&
    d.imageBased.entries["all"] == d.questions.entries["all"] &&
    d.timeLimited.entries["all"] == d.questions.entries["all"]
  }

  /** updateAllCategory leaves the three "all" lists identical and is idempotent. */
  lemma SyncedIsInSyncAndIdempotent(d: Document)
    ensures InSync(Synced(d))
    ensures Synced(Synced(d)) == Synced(d)
    ensures d.Valid() ==> Synced(d).Valid()
  {
    var all := AllOf(d.questions);
    AllOfIgnoresAll(d.questions, all);
    PutTwice(d.questions, "all", all, all);
    PutTwice(d.imageBased, "all", all, all);
    PutTwice(d.timeLimited, "all", all, all);
  }

  /** `map[cat].push(q)`, creating the array when it is absent. */
  function Appended(c: Catalog, cat: string, q: Question): (r: Catalog)
    ensures c.Valid() ==> r.Valid()
    ensures ListOf(r, cat) == ListOf(c, cat) + [q]
    ensures forall n :: n != cat ==> ListOf(r, n) == ListOf(c, n)
  {
    c.Put(cat, ListOf(c, cat) + [q])
  }

  /**
   * The sibling update of an edit: the first structural match of `original`
   * in `c[cat]` becomes `edited`; with no match the map is left as it is.
   */
  function ReplaceFirstMatch(c: Catalog, cat: string, original: Question, edited: Question): (r: Catalog)
    ensures c.Valid() ==> r.Valid()
    ensures r.keys == c.keys
    ensures forall n :: n != cat ==> ListOf(r, n) == ListOf(c, n)
    ensures |ListOf(r, cat)| == |ListOf(c, cat)|
    ensures FirstMatch(ListOf(c, cat), original).None? ==> r == c
    ensures FirstMatch(ListOf(c, cat), original).Some? ==>
      var i := FirstMatch(ListOf(c, cat), original).value;
      ListOf(r, cat)[i] == edited &&
      forall j :: 0 <= j < |ListOf(c, cat)| && j != i ==> ListOf(r, cat)[j] == ListOf(c, cat)[j]
  {
    if cat in c.entries then
      match FirstMatch(c.entries[cat], original)
      case None => c
      case Some(i) => c.Put(cat, c.entries[cat][i := edited])
    else c
  }

  /** `s.splice(i, 1)`. */
  function RemoveAt(s: seq<Question>, i: nat): (r: seq<Question>)
    requires i < |s|
    ensures |r| == |s| - 1
    ensures forall j :: 0 <= j < i ==> r[j] == s[j]
    ensures forall j :: i <= j < |r| ==> r[j] == s[j + 1]
    ensures multiset(r) + multiset{s[i]} == multiset(s)
  {
    assert s == s[..i] + [s[i]] + s[i + 1..];
    s[..i] + s[i + 1..]
  }

  /** The sibling update of a delete: drop the first structural match, if any. */
  function RemoveFirstMatch(c: Catalog, cat: string, target: Question): (r: Catalog)
    ensures c.Valid() ==> r.Valid()
    ensures r.keys == c.keys
    ensures forall n :: n != cat ==> ListOf(r, n) == ListOf(c, n)
    ensures FirstMatch(ListOf(c, cat), target).None? ==> r == c
    ensures FirstMatch(ListOf(c, cat), target).Some? ==>
      |ListOf(r, cat)| == |ListOf(c, cat)| - 1 &&
      multiset(ListOf(r, cat)) + multiset{ListOf(c, cat)[FirstMatch(ListOf(c, cat), target).value]}
        == multiset(ListOf(c, cat))
    ensures |ListOf(c, cat)| - 1 <= |ListOf(r, cat)| <= |ListOf(c, cat)|
    ensures multiset(ListOf(r, cat)) <= multiset(ListOf(c, cat))
  {
    if cat in c.entries then
      match FirstMatch(c.entries[cat], target)
      case None => c
      case Some(i) => c.Put(cat, RemoveAt(c.entries[cat], i))
    else c
  }

  /** The document after add-question stored `q` in category `cat`. */
  function WithQuestionAdded(d: Document, cat: string, q: Question): Document {
    Synced(Document(Appended(d.questions, cat, q), Appended(d.imageBased, cat, q), Appended(d.timeLimited, cat, q)))
  }

  /** The document after edit-question replaced `questions[cat][index]` by `edited`. */
  function WithQuestionEdited(d: Document, cat: string, index: nat, edited: Question): Document
    requires cat in d.questions.entries && index < |d.questions.entries[cat]|
  {
    var original := d.questions.entries[cat][index];
    Synced(Document(
      d.questions.Put(cat, d.questions.entries[cat][index := edited]),
      ReplaceFirstMatch(d.imageBased, cat, original, edited),
      ReplaceFirstMatch(d.timeLimited, cat, original, edited)))
  }

  /** The document after delete-question removed `questions[cat][index]`. */
  function WithQuestionDeleted(d: Document, cat: string, index: nat): Document
    requires cat in d.questions.entries && index < |d.questions.entries[cat]|
  {
    var target := d.questions.entries[cat][index];
    Synced(Document(
      d.questions.Put(cat, RemoveAt(d.questions.entries[cat], index)),
      RemoveFirstMatch(d.imageBased, cat, target),
      RemoveFirstMatch(d.timeLimited, cat, target)))
  }

  /** The three maps with `name` deleted from each, before "all" is recomputed. */
  function CategoryDropped(d: Document, name: string): Document {
    Document(d.questions.Remove(name), d.imageBased.Remove(name), d.timeLimited.Remove(name))
  }

  /** The document after delete-category removed `name` from every map. */
  function WithCategoryDeleted(d: Document, name: string): Document {
    Synced(CategoryDropped(d, name))
  }

  /** `if (!map[name]) map[name] = []`: an existing list is never replaced. */
  function Ensured(c: Catalog, name: string): (r: Catalog)
    ensures c.Valid() ==> r.Valid()
    ensures name in r.entries
    ensures forall n :: n in c.entries ==> n in r.entries && r.entries[n] == c.entries[n]
    ensures forall n :: n in r.entries && n != name ==> n in c.entries
  {
    if name in c.entries then c else c.Put(name, [])
  }

  /** The document after add-category created `name` in the data source of each mode. */
  function WithCategoryAdded(d: Document, name: string, modes: seq<string>): Document
  {
    if |modes| == 0 then d
    else
      var before := WithCategoryAdded(d, name, modes[..|modes| - 1]);
      var source := DataSourceFor(modes[|modes| - 1]);
      if source == "image-based" then before.(imageBased := Ensured(before.imageBased, name))
      else if source == "questions" then before.(questions := Ensured(before.questions, name))
      else before
  }

  lemma WithCategoryAddedStep(d: Document, name: string, modes: seq<string>, i: nat)
    requires i < |modes|
    ensures var before := WithCategoryAdded(d, name, modes[..i]);
      WithCategoryAdded(d, name, modes[..i + 1]) ==
        if DataSourceFor(modes[i]) == "image-based" then before.(imageBased := Ensured(before.imageBased, name))
        else if DataSourceFor(modes[i]) == "questions" then before.(questions := Ensured(before.questions, name))
        else before
  {
    assert modes[..i + 1][..i] == modes[..i];
  }

  // ----- what the edits promise -----

  /** `a` and `b` agree on every real category other than `cat`. */
  ghost predicate SameElsewhere(a: Catalog, b: Catalog, cat: string) {
    forall n :: n != cat && n != "all" ==> ListOf(a, n) == ListOf(b, n)
  }

  /** Recomputing "all" changes nothing else and keeps the maps well formed. */
  lemma SyncedTouchesOnlyAll(d: Document)
    ensures d.Valid() ==> Synced(d).Valid()
    ensures InSync(Synced(d))
    ensures forall n :: n != "all" ==>
      ListOf(Synced(d).questions, n) == ListOf(d.questions, n) &&
      ListOf(Synced(d).imageBased, n) == ListOf(d.imageBased, n) &&
      ListOf(Synced(d).timeLimited, n) == ListOf(d.timeLimited, n)
  {
    SyncedIsInSyncAndIdempotent(d);
  }

  /**
   * add-question appends `q` at the end of `cat` in all three maps, creating
   * the lists when absent, and touches no other real category.
   */
  lemma AddAppendsToAllThreeMaps(d: Document, cat: string, q: Question)
    requires d.Valid() && cat != "all"
    ensures WithQuestionAdded(d, cat, q).Valid() && InSync(WithQuestionAdded(d, cat, q))
    ensures ListOf(WithQuestionAdded(d, cat, q).questions, cat) == ListOf(d.questions, cat) + [q]
    ensures ListOf(WithQuestionAdded(d, cat, q).imageBased, cat) == ListOf(d.imageBased, cat) + [q]
    ensures ListOf(WithQuestionAdded(d, cat, q).timeLimited, cat) == ListOf(d.timeLimited, cat) + [q]
    ensures SameElsewhere(WithQuestionAdded(d, cat, q).questions, d.questions, cat)
    ensures SameElsewhere(WithQuestionAdded(d, cat, q).imageBased, d.imageBased, cat)
    ensures SameElsewhere(WithQuestionAdded(d, cat, q).timeLimited, d.timeLimited, cat)
  {
    var pre := Document(Appended(d.questions, cat, q), Appended(d.imageBased, cat, q), Appended(d.timeLimited, cat, q));
    SyncedTouchesOnlyAll(pre);
  }

  /**
   * edit-question replaces exactly `questions[cat][index]`, and in each
   * sibling at most the first structural match of the original question,
   * leaving a sibling without a match as it was.
   */
  lemma EditReplacesOneQuestion(d: Document, cat: string, index: nat, edited: Question)
    requires d.Valid() && cat != "all"
    requires cat in d.questions.entries && index < |d.questions.entries[cat]|
    ensures WithQuestionEdited(d, cat, index, edited).Valid() && InSync(WithQuestionEdited(d, cat, index, edited))
    ensures ListOf(WithQuestionEdited(d, cat, index, edited).questions, cat) == d.questions.entries[cat][index := edited]
    ensures |ListOf(WithQuestionEdited(d, cat, index, edited).imageBased, cat)| == |ListOf(d.imageBased, cat)|
    ensures |ListOf(WithQuestionEdited(d, cat, index, edited).timeLimited, cat)| == |ListOf(d.timeLimited, cat)|
    ensures FirstMatch(ListOf(d.imageBased, cat), d.questions.entries[cat][index]).None? ==>
      ListOf(WithQuestionEdited(d, cat, index, edited).imageBased, cat) == ListOf(d.imageBased, cat)
    ensures FirstMatch(ListOf(d.timeLimited, cat), d.questions.entries[cat][index]).None? ==>
      ListOf(WithQuestionEdited(d, cat, index, edited).timeLimited, cat) == ListOf(d.timeLimited, cat)
  {
    var original := d.questions.entries[cat][index];
    var pre := Document(
      d.questions.Put(cat, d.questions.entries[cat][index := edited]),
      ReplaceFirstMatch(d.imageBased, cat, original, edited),
      ReplaceFirstMatch(d.timeLimited, cat, original, edited));
    assert pre.Valid();
    SyncedTouchesOnlyAll(pre);
  }

  /** edit-question leaves every other real category of every map as it was. */
  lemma EditKeepsOtherCategories(d: Document, cat: string, index: nat, edited: Question)
    requires cat in d.questions.entries && index < |d.questions.entries[cat]|
    ensures SameElsewhere(WithQuestionEdited(d, cat, index, edited).questions, d.questions, cat)
    ensures SameElsewhere(WithQuestionEdited(d, cat, index, edited).imageBased, d.imageBased, cat)
    ensures SameElsewhere(WithQuestionEdited(d, cat, index, edited).timeLimited, d.timeLimited, cat)
  {
    var original := d.questions.entries[cat][index];
    var pre := Document(
      d.questions.Put(cat, d.questions.entries[cat][index := edited]),
      ReplaceFirstMatch(d.imageBased, cat, original, edited),
      ReplaceFirstMatch(d.timeLimited, cat, original, edited));
    SyncedTouchesOnlyAll(pre);
    assert SameElsewhere(pre.questions, d.questions, cat);
    assert SameElsewhere(pre.imageBased, d.imageBased, cat);
    assert SameElsewhere(pre.timeLimited, d.timeLimited, cat);
  }

  /** delete-question removes exactly the question at `index` from `questions[cat]`. */
  lemma DeleteRemovesOneQuestion(d: Document, cat: string, index: nat)
    requires d.Valid() && cat != "all"
    requires cat in d.questions.entries && index < |d.questions.entries[cat]|
    ensures WithQuestionDeleted(d, cat, index).Valid() && InSync(WithQuestionDeleted(d, cat, index))
    ensures ListOf(WithQuestionDeleted(d, cat, index).questions, cat) == RemoveAt(d.questions.entries[cat], index)
  {
    var target := d.questions.entries[cat][index];
    var pre := Document(
      d.questions.Put(cat, RemoveAt(d.questions.entries[cat], index)),
      RemoveFirstMatch(d.imageBased, cat, target),
      RemoveFirstMatch(d.timeLimited, cat, target));
    assert pre.Valid();
    SyncedTouchesOnlyAll(pre);
  }

  /** delete-question leaves every other real category of every map as it was. */
  lemma DeleteKeepsOtherCategories(d: Document, cat: string, index: nat)
    requires cat in d.questions.entries && index < |d.questions.entries[cat]|
    ensures SameElsewhere(WithQuestionDeleted(d, cat, index).questions, d.questions, cat)
    ensures SameElsewhere(WithQuestionDeleted(d, cat, index).imageBased, d.imageBased, cat)
    ensures SameElsewhere(WithQuestionDeleted(d, cat, index).timeLimited, d.timeLimited, cat)
  {
    var target := d.questions.entries[cat][index];
    var pre := Document(
      d.questions.Put(cat, RemoveAt(d.questions.entries[cat], index)),
      RemoveFirstMatch(d.imageBased, cat, target),
      RemoveFirstMatch(d.timeLimited, cat, target));
    SyncedTouchesOnlyAll(pre);
    assert SameElsewhere(pre.questions, d.questions, cat);
    assert SameElsewhere(pre.imageBased, d.imageBased, cat);
    assert SameElsewhere(pre.timeLimited, d.timeLimited, cat);
  }

  /**
   * In each sibling map delete-question drops at most one question (the
   * first structural match of the deleted one), so the list shrinks by zero
   * or one and keeps only questions it already had.
   */
  lemma DeleteShrinksSiblingsByAtMostOne(d: Document, cat: string, index: nat)
    requires cat != "all"
    requires cat in d.questions.entries && index < |d.questions.entries[cat]|
    ensures |ListOf(d.imageBased, cat)| - 1 <= |ListOf(WithQuestionDeleted(d, cat, index).imageBased, cat)| <= |ListOf(d.imageBased, cat)|
    ensures |ListOf(d.timeLimited, cat)| - 1 <= |ListOf(WithQuestionDeleted(d, cat, index).timeLimited, cat)| <= |ListOf(d.timeLimited, cat)|
    ensures multiset(ListOf(WithQuestionDeleted(d, cat, index).imageBased, cat)) <= multiset(ListOf(d.imageBased, cat))
    ensures multiset(ListOf(WithQuestionDeleted(d, cat, index).timeLimited, cat)) <= multiset(ListOf(d.timeLimited, cat))
  {
    var target := d.questions.entries[cat][index];
    var pre := Document(
      d.questions.Put(cat, RemoveAt(d.questions.entries[cat], index)),
      RemoveFirstMatch(d.imageBased, cat, target),
      RemoveFirstMatch(d.timeLimited, cat, target));
    SyncedTouchesOnlyAll(pre);
  }

  /** delete-category leaves `name` in none of the maps (unless it is "all", which is rebuilt). */
  lemma DeleteCategoryRemovesEverywhere(d: Document, name: string)
    requires d.Valid() && name != "all"
    ensures WithCategoryDeleted(d, name).Valid() && InSync(WithCategoryDeleted(d, name))
    ensures name !in WithCategoryDeleted(d, name).questions.entries
    ensures name !in WithCategoryDeleted(d, name).imageBased.entries
    ensures name !in WithCategoryDeleted(d, name).timeLimited.entries
  {
    var pre := CategoryDropped(d, name);
    assert WithCategoryDeleted(d, name) == Synced(pre);
    assert pre.Valid();
    SyncedTouchesOnlyAll(pre);
  }

  /** delete-category leaves every other real category as it was. */
  lemma DeleteCategoryKeepsOthers(d: Document, name: string)
    ensures SameElsewhere(WithCategoryDeleted(d, name).questions, d.questions, name)
    ensures SameElsewhere(WithCategoryDeleted(d, name).imageBased, d.imageBased, name)
    ensures SameElsewhere(WithCategoryDeleted(d, name).timeLimited, d.timeLimited, name)
  {
    var pre := CategoryDropped(d, name);
    SyncedTouchesOnlyAll(pre);
    RemoveKeepsOthers(d.questions, name);
    RemoveKeepsOthers(d.imageBased, name);
    RemoveKeepsOthers(d.timeLimited, name);
  }

  lemma RemoveKeepsOthers(c: Catalog, name: string)
    ensures forall n :: n != name ==> ListOf(c.Remove(name), n) == ListOf(c, n)
  {
  }

  /**
   * add-category never overwrites an existing list, never touches the
   * time-limited map, and creates `name` in image-based exactly when some
   * mode is image-based or time-limited.
   */
  lemma {:induction false} AddCategoryOnlyCreates(d: Document, name: string, modes: seq<string>)
    requires d.Valid()
    ensures var r := WithCategoryAdded(d, name, modes);
      r.Valid() &&
      r.timeLimited == d.timeLimited &&
      (forall n :: n in d.questions.entries ==> n in r.questions.entries && r.questions.entries[n] == d.questions.entries[n]) &&
      (forall n :: n in d.imageBased.entries ==> n in r.imageBased.entries && r.imageBased.entries[n] == d.imageBased.entries[n]) &&
      (forall n :: n in r.imageBased.entries && n !in d.imageBased.entries ==> n == name && r.imageBased.entries[n] == []) &&
      (forall n :: n in r.questions.entries && n !in d.questions.entries ==> n == name && r.questions.entries[n] == []) &&
      (name in r.imageBased.entries <==> name in d.imageBased.entries || "image-based" in modes || "time-limited" in modes)
  {
    if |modes| > 0 {
      var init := modes[..|modes| - 1];
      AddCategoryOnlyCreates(d, name, init);
      assert modes == init + [modes[|modes| - 1]];
    }
  }

  // ===================================================================
  // The legacy maps as mirrors of the unified map
  // ===================================================================

  /**
   * In every real category the image-based and the time-limited list hold
   * the same questions, in the same order, as the unified list (an absent
   * list reads as empty). add-question writes all three lists alike so that
   * the two quiz modes show what the unified map holds.
   */
  ghost predicate SiblingsAgree(d: Document) {
    forall n :: n != "all" ==>
      ListOf(d.imageBased, n) == ListOf(d.questions, n) && ListOf(d.timeLimited, n) == ListOf(d.questions, n)
  }

  /** No question before `qs[i]` is a structural match of it. */
  predicate FirstOfItsKind(qs: seq<Question>, i: nat) {
    i < |qs| && forall j :: 0 <= j < i ==> !SameQuestion(qs[j], qs[i])
  }

  /** `findIndex` finds a question of the list itself exactly when no earlier question matches it. */
  lemma FirstMatchOfOwn(qs: seq<Question>, i: nat)
    requires i < |qs|
    ensures FirstMatch(qs, qs[i]) == Some(i) <==> FirstOfItsKind(qs, i)
  {
    assert SameQuestion(qs[i], qs[i]);
  }

  /** add-question keeps the mirror. */
  lemma AddKeepsSiblingsAgree(d: Document, cat: string, q: Question)
    requires SiblingsAgree(d)
    ensures SiblingsAgree(WithQuestionAdded(d, cat, q))
  {
    var pre := Document(Appended(d.questions, cat, q), Appended(d.imageBased, cat, q), Appended(d.timeLimited, cat, q));
    SyncedTouchesOnlyAll(pre);
  }

  lemma EnsuredKeepsLists(c: Catalog, name: string)
    ensures forall n :: ListOf(Ensured(c, name), n) == ListOf(c, n)
  {
  }

  /** add-category keeps the mirror: a list it creates is empty, and an existing list is never replaced. */
  lemma {:induction false} AddCategoryKeepsSiblingsAgree(d: Document, name: string, modes: seq<string>)
    requires SiblingsAgree(d)
    ensures SiblingsAgree(WithCategoryAdded(d, name, modes))
  {
    if |modes| > 0 {
      var before := WithCategoryAdded(d, name, modes[..|modes| - 1]);
      AddCategoryKeepsSiblingsAgree(d, name, modes[..|modes| - 1]);
      EnsuredKeepsLists(before.imageBased, name);
      EnsuredKeepsLists(before.questions, name);
    }
  }

  /** delete-category keeps the mirror. */
  lemma DeleteCategoryKeepsSiblingsAgree(d: Document, name: string)
    requires SiblingsAgree(d)
    ensures SiblingsAgree(WithCategoryDeleted(d, name))
  {
    var pre := CategoryDropped(d, name);
    SyncedTouchesOnlyAll(pre);
    RemoveKeepsOthers(d.questions, name);
    RemoveKeepsOthers(d.imageBased, name);
    RemoveKeepsOthers(d.timeLimited, name);
  }

  // ----- delete-question and the mirror -----

  /**
   * The sibling update a delete needs to keep the mirror: a sibling list
   * equal to the unified list loses the question at the same index; any
   * other sibling loses the first structural match, as the server does.
   */
  function RemoveMirrored(c: Catalog, cat: string, unified: seq<Question>, index: nat): (r: Catalog)
    requires index < |unified|
    ensures c.Valid() ==> r.Valid()
    ensures ListOf(c, cat) == unified ==> ListOf(r, cat) == RemoveAt(unified, index)
    ensures ListOf(c, cat) != unified ==> r == RemoveFirstMatch(c, cat, unified[index])
    ensures forall n :: n != cat ==> ListOf(r, n) == ListOf(c, n)
  {
    if ListOf(c, cat) == unified then c.Put(cat, RemoveAt(unified, index))
    else RemoveFirstMatch(c, cat, unified[index])
  }

  /** delete-question with the sibling lists updated by RemoveMirrored. */
  function WithQuestionDeletedMirrored(d: Document, cat: string, index: nat): Document
    requires cat in d.questions.entries && index < |d.questions.entries[cat]|
  {
    var unified := d.questions.entries[cat];
    Synced(Document(
      d.questions.Put(cat, RemoveAt(unified, index)),
      RemoveMirrored(d.imageBased, cat, unified, index),
      RemoveMirrored(d.timeLimited, cat, unified, index)))
  }

  /** The corrected delete keeps the mirror whatever the deleted question is. */
  lemma MirroredDeleteKeepsSiblingsAgree(d: Document, cat: string, index: nat)
    requires SiblingsAgree(d)
    requires cat in d.questions.entries && index < |d.questions.entries[cat]|
    ensures SiblingsAgree(WithQuestionDeletedMirrored(d, cat, index))
    ensures cat != "all" ==>
      ListOf(WithQuestionDeletedMirrored(d, cat, index).questions, cat) == RemoveAt(d.questions.entries[cat], index)
  {
    var unified := d.questions.entries[cat];
    var pre := Document(
      d.questions.Put(cat, RemoveAt(unified, index)),
      RemoveMirrored(d.imageBased, cat, unified, index),
      RemoveMirrored(d.timeLimited, cat, unified, index));
    SyncedTouchesOnlyAll(pre);
  }

  /**
   * Where no earlier question of the category matches the deleted one, the
   * server's first-match delete is the corrected delete.
   */
  lemma DeleteMatchesMirrored(d: Document, cat: string, index: nat)
    requires SiblingsAgree(d) && cat != "all"
    requires cat in d.questions.entries && FirstOfItsKind(d.questions.entries[cat], index)
    ensures WithQuestionDeleted(d, cat, index) == WithQuestionDeletedMirrored(d, cat, index)
  {
    var unified := d.questions.entries[cat];
    FirstMatchOfOwn(unified, index);
    assert ListOf(d.imageBased, cat) == unified && ListOf(d.timeLimited, cat) == unified;
    assert cat in d.imageBased.entries && cat in d.timeLimited.entries;
    assert RemoveFirstMatch(d.imageBased, cat, unified[index]) == RemoveMirrored(d.imageBased, cat, unified, index);
    assert RemoveFirstMatch(d.timeLimited, cat, unified[index]) == RemoveMirrored(d.timeLimited, cat, unified, index);
  }

  /** delete-question keeps the mirror when no earlier question matches the deleted one. */
  lemma DeleteKeepsSiblingsAgree(d: Document, cat: string, index: nat)
    requires SiblingsAgree(d) && cat != "all"
    requires cat in d.questions.entries && FirstOfItsKind(d.questions.entries[cat], index)
    ensures SiblingsAgree(WithQuestionDeleted(d, cat, index))
  {
    DeleteMatchesMirrored(d, cat, index);
    MirroredDeleteKeepsSiblingsAgree(d, cat, index);
  }

  /**
   * Two different questions can match each other (say, they differ only in
   * their explanation). Deleting the second from the unified list removes
   * the first from each sibling, and the mirror breaks.
   */
  lemma DeleteCanBreakSiblingsAgree(cat: string, q1: Question, q2: Question)
    requires cat != "all" && SameQuestion(q1, q2) && q1 != q2
    ensures var c := OrderedMap([cat], map[cat := [q1, q2]]);
      var d := Document(c, c, c);
      var r := WithQuestionDeleted(d, cat, 1);
      d.Valid() && SiblingsAgree(d) && !FirstOfItsKind([q1, q2], 1) &&
      ListOf(r.questions, cat) == [q1] &&
      ListOf(r.imageBased, cat) == [q2] && ListOf(r.timeLimited, cat) == [q2] &&
      !SiblingsAgree(r)
  {
    PairMirror(cat, q1, q2);
    var c := OrderedMap([cat], map[cat := [q1, q2]]);
    var unified := c.Put(cat, RemoveAt([q1, q2], 1));
    var sibling := RemoveFirstMatch(c, cat, q2);
    PairLists(c, cat, q1, q2);
    var pre := Document(unified, sibling, sibling);
    SyncedTouchesOnlyAll(pre);
  }

  /** Two matching questions in one category of all three maps: a mirror whose second question is not the first of its kind. */
  lemma PairMirror(cat: string, q1: Question, q2: Question)
    requires SameQuestion(q1, q2)
    ensures var c := OrderedMap([cat], map[cat := [q1, q2]]);
      var d := Document(c, c, c);
      d.Valid() && SiblingsAgree(d) && !FirstOfItsKind([q1, q2], 1)
  {
    assert [q1, q2][0] == q1;
  }

  /** The lists of the delete in DeleteCanBreakSiblingsAgree, before "all" is recomputed. */
  lemma PairLists(c: Catalog, cat: string, q1: Question, q2: Question)
    requires c.entries == map[cat := [q1, q2]] && SameQuestion(q1, q2)
    ensures ListOf(c.Put(cat, RemoveAt([q1, q2], 1)), cat) == [q1]
    ensures ListOf(RemoveFirstMatch(c, cat, q2), cat) == [q2]
  {
    assert [q1, q2][0] == q1;
    assert FirstMatch([q1, q2], q2) == Some(0);
    assert [q1, q2][..0] + [q1, q2][1..] == [q2];
    assert [q1, q2][..1] + [q1, q2][2..] == [q1];
  }

  // ----- edit-question and the mirror -----

  /**
   * The sibling update an edit needs to keep the mirror: a sibling list
   * equal to the unified list is edited at the same index; any other
   * sibling has its first structural match replaced, as the server does.
   */
  function ReplaceMirrored(c: Catalog, cat: string, unified: seq<Question>, index: nat, edited: Question): (r: Catalog)
    requires index < |unified|
    ensures c.Valid() ==> r.Valid()
    ensures ListOf(c, cat) == unified ==> ListOf(r, cat) == unified[index := edited]
    ensures ListOf(c, cat) != unified ==> r == ReplaceFirstMatch(c, cat, unified[index], edited)
    ensures forall n :: n != cat ==> ListOf(r, n) == ListOf(c, n)
  {
    if ListOf(c, cat) == unified then c.Put(cat, unified[index := edited])
    else ReplaceFirstMatch(c, cat, unified[index], edited)
  }

  /** edit-question with the sibling lists updated by ReplaceMirrored. */
  function WithQuestionEditedMirrored(d: Document, cat: string, index: nat, edited: Question): Document
    requires cat in d.questions.entries && index < |d.questions.entries[cat]|
  {
    var unified := d.questions.entries[cat];
    Synced(Document(
      d.questions.Put(cat, unified[index := edited]),
      ReplaceMirrored(d.imageBased, cat, unified, index, edited),
      ReplaceMirrored(d.timeLimited, cat, unified, index, edited)))
  }

  /** The corrected edit keeps the mirror whatever the edited question is. */
  lemma MirroredEditKeepsSiblingsAgree(d: Document, cat: string, index: nat, edited: Question)
    requires SiblingsAgree(d)
    requires cat in d.questions.entries && index < |d.questions.entries[cat]|
    ensures SiblingsAgree(WithQuestionEditedMirrored(d, cat, index, edited))
    ensures cat != "all" ==>
      ListOf(WithQuestionEditedMirrored(d, cat, index, edited).questions, cat) == d.questions.entries[cat][index := edited]
  {
    var unified := d.questions.entries[cat];
    var pre := Document(
      d.questions.Put(cat, unified[index := edited]),
      ReplaceMirrored(d.imageBased, cat, unified, index, edited),
      ReplaceMirrored(d.timeLimited, cat, unified, index, edited));
    SyncedTouchesOnlyAll(pre);
  }

  /**
   * Where no earlier question of the category matches the edited one, the
   * server's first-match edit is the corrected edit.
   */
  lemma EditMatchesMirrored(d: Document, cat: string, index: nat, edited: Question)
    requires SiblingsAgree(d) && cat != "all"
    requires cat in d.questions.entries && FirstOfItsKind(d.questions.entries[cat], index)
    ensures WithQuestionEdited(d, cat, index, edited) == WithQuestionEditedMirrored(d, cat, index, edited)
  {
    var unified := d.questions.entries[cat];
    FirstMatchOfOwn(unified, index);
    assert ListOf(d.imageBased, cat) == unified && ListOf(d.timeLimited, cat) == unified;
    assert cat in d.imageBased.entries && cat in d.timeLimited.entries;
    assert ReplaceFirstMatch(d.imageBased, cat, unified[index], edited) == ReplaceMirrored(d.imageBased, cat, unified, index, edited);
    assert ReplaceFirstMatch(d.timeLimited, cat, unified[index], edited) == ReplaceMirrored(d.timeLimited, cat, unified, index, edited);
  }

  /** edit-question keeps the mirror when no earlier question matches the edited one. */
  lemma EditKeepsSiblingsAgree(d: Document, cat: string, index: nat, edited: Question)
    requires SiblingsAgree(d) && cat != "all"
    requires cat in d.questions.entries && FirstOfItsKind(d.questions.entries[cat], index)
    ensures SiblingsAgree(WithQuestionEdited(d, cat, index, edited))
  {
    EditMatchesMirrored(d, cat, index, edited);
    MirroredEditKeepsSiblingsAgree(d, cat, index, edited);
  }

  /**
   * Editing the second of two questions that match each other rewrites the
   * first in each sibling, and the mirror breaks.
   */
  lemma EditCanBreakSiblingsAgree(cat: string, q1: Question, q2: Question, edited: Question)
    requires cat != "all" && SameQuestion(q1, q2) && q1 != q2 && edited != q1 && edited != q2
    ensures var c := OrderedMap([cat], map[cat := [q1, q2]]);
      var d := Document(c, c, c);
      var r := WithQuestionEdited(d, cat, 1, edited);
      d.Valid() && SiblingsAgree(d) && !FirstOfItsKind([q1, q2], 1) &&
      ListOf(r.questions, cat) == [q1, edited] &&
      ListOf(r.imageBased, cat) == [edited, q2] && ListOf(r.timeLimited, cat) == [edited, q2] &&
      !SiblingsAgree(r)
  {
    PairMirror(cat, q1, q2);
    var c := OrderedMap([cat], map[cat := [q1, q2]]);
    var sibling := ReplaceFirstMatch(c, cat, q2, edited);
    EditedPairLists(c, cat, q1, q2, edited);
    var pre := Document(c.Put(cat, [q1, q2][1 := edited]), sibling, sibling);
    SyncedTouchesOnlyAll(pre);
  }

  /** The lists of the edit in EditCanBreakSiblingsAgree, before "all" is recomputed. */
  lemma EditedPairLists(c: Catalog, cat: string, q1: Question, q2: Question, edited: Question)
    requires c.entries == map[cat := [q1, q2]] && SameQuestion(q1, q2)
    ensures ListOf(c.Put(cat, [q1, q2][1 := edited]), cat) == [q1, edited]
    ensures ListOf(ReplaceFirstMatch(c, cat, q2, edited), cat) == [edited, q2]
  {
    assert [q1, q2][0] == q1;
    assert FirstMatch([q1, q2], q2) == Some(0);
  }

  // ===================================================================
  // File names for uploaded images
  // ===================================================================

  /** `s.split(sep)`: at least one part, and no part contains the separator. */
  function Split(s: string, sep: char): (r: seq<string>)
    ensures |r| >= 1
    ensures forall i :: 0 <= i < |r| ==> sep !in r[i]
  {
    if |s| == 0 then [""]
    else
      var rest := Split(s[1..], sep);
      if s[0] == sep then [""] + rest
      else [[s[0]] + rest[0]] + rest[1..]
  }

  /** `parts.join(sep)`. */
  function Join(parts: seq<string>, sep: char): string {
    if |parts| == 0 then ""
    else if |parts| == 1 then parts[0]
    else parts[0] + [sep] + Join(parts[1..], sep)
  }

  /** Splitting and joining with the same separator gives the string back. */
  lemma {:induction false} JoinSplit(s: string, sep: char)
    ensures Join(Split(s, sep), sep) == s
  {
    if |s| > 0 {
      JoinSplit(s[1..], sep);
      var rest := Split(s[1..], sep);
      if s[0] == sep {
        assert ([""] + rest)[1..] == rest;
      } else if |rest| > 1 {
        assert ([[s[0]] + rest[0]] + rest[1..])[1..] == rest[1..];
        assert s == [s[0]] + s[1..];
      }
    }
  }

  /** `w.charAt(0).toUpperCase() + w.slice(1)`. */
  function Capitalize(w: string): string {
    if |w| == 0 then "" else [UpperChar(w[0])] + w[1..]
  }

  function CapitalizeAll(parts: seq<string>): (r: seq<string>)
    ensures |r| == |parts|
    ensures forall i :: 0 <= i < |parts| ==> r[i] == Capitalize(parts[i])
  {
    if |parts| == 0 then [] else [Capitalize(parts[0])] + CapitalizeAll(parts[1..])
  }

  /** getCategoryFolderName: "google_cars" becomes "Google Cars". */
  function FolderName(category: string): string {
    Join(CapitalizeAll(Split(category, '_')), ' ')
  }

  lemma JoinLength(x: string, rest: seq<string>, sep: char)
    ensures |Join([x] + rest, sep)| == |x| + (if |rest| == 0 then 0 else 1 + |Join(rest, sep)|)
  {
    if |rest| > 0 {
      assert ([x] + rest)[1..] == rest;
    }
  }

  /** The folder name is as long as the category name: each '_' becomes one space. */
  lemma {:induction false} FolderNameLength(category: string)
    ensures |FolderName(category)| == |category|
    ensures '_' !in FolderName(category)
  {
    FolderNameShape(category);
  }

  lemma {:induction false} FolderNameShape(s: string)
    ensures |Join(CapitalizeAll(Split(s, '_')), ' ')| == |s|
    ensures '_' !in Join(CapitalizeAll(Split(s, '_')), ' ')
  {
    if |s| > 0 {
      FolderNameShape(s[1..]);
      var rest := Split(s[1..], '_');
      var caps := CapitalizeAll(rest);
      assert caps == [caps[0]] + caps[1..];
      JoinLength(caps[0], caps[1..], ' ');
      if s[0] == '_' {
        assert CapitalizeAll(Split(s, '_')) == [""] + caps;
        JoinLength("", caps, ' ');
        assert Join([""] + caps, ' ') == "" + [' '] + Join(caps, ' ');
      } else {
        var first := [s[0]] + rest[0];
        assert CapitalizeAll(Split(s, '_')) == [Capitalize(first)] + caps[1..];
        JoinLength(Capitalize(first), caps[1..], ' ');
        assert Capitalize(first) == [UpperChar(s[0])] + rest[0];
        assert '_' !in rest[0];
        if |caps| > 1 {
          assert Join([Capitalize(first)] + caps[1..], ' ') == Capitalize(first) + [' '] + Join(caps[1..], ' ');
          assert Join(caps, ' ') == caps[0] + [' '] + Join(caps[1..], ' ');
        } else {
          assert Join([Capitalize(first)] + caps[1..], ' ') == Capitalize(first);
        }
      }
    }
  }

  /** `originalName.split('.').pop().toLowerCase()`. */
  function Extension(originalName: string): (r: string)
    ensures '.' !in r
  {
    var parts := Split(originalName, '.');
    Lower(parts[|parts| - 1])
  }

  function DigitChar(d: nat): char
    requires d < 10
  {
    "0123456789"[d]
  }

  /** The decimal form of a millisecond timestamp. */
  function Decimal(n: nat): (r: string)
    ensures |r| >= 1
  {
    if n < 10 then [DigitChar(n)] else Decimal(n / 10) + [DigitChar(n % 10)]
  }

  /**
   * The part of generateImageFilename before the extension: with a country
   * code `<category><CODE>`, otherwise `<category>_<ms>_<hex>` from the clock
   * and the random id.
   */
  function FileStem(category: string, countryCode: Option<string>, now: nat, randomId: string): string {
    if countryCode.Some? && countryCode.value != "" then Lower(category) + Upper(countryCode.value)
    else Lower(category) + "_" + Decimal(now) + "_" + randomId
  }

  /** generateImageFilename: the stem, a dot, and the lower-cased extension. */
  function ImageFilename(category: string, originalName: string, countryCode: Option<string>,
                         now: nat, randomId: string): string
  {
    FileStem(category, countryCode, now, randomId) + "." + Extension(originalName)
  }

  /**
   * With a country code the file name depends neither on the clock nor on the
   * random id, so two uploads for the same country and category reuse one
   * file name.
   */
  lemma ImageFilenameIgnoresClockWithCountry(category: string, originalName: string, code: string,
                                             now1: nat, now2: nat, id1: string, id2: string)
    requires code != ""
    ensures ImageFilename(category, originalName, Some(code), now1, id1) ==
            ImageFilename(category, originalName, Some(code), now2, id2)
  {
  }

  /**
   * Every generated file name ends in a dot and the lower-cased extension of
   * the upload, and the extension holds no dot of its own.
   */
  lemma ImageFilenameKeepsExtension(category: string, originalName: string, code: Option<string>,
                                    now: nat, id: string)
    ensures var f := ImageFilename(category, originalName, code, now, id);
      var ext := Extension(originalName);
      |ext| < |f| && f[|f| - |ext| - 1] == '.' && f[|f| - |ext|..] == ext && '.' !in ext
  {
    var stem := FileStem(category, code, now, id);
    var ext := Extension(originalName);
    var f := stem + "." + ext;
    assert f[|stem|] == '.';
    assert f[|stem| + 1..] == ext;
  }

  const CountryCodes: map<string, string> := map[
    "Deutschland" := "GER", "Germany" := "GER",
    "Frankreich" := "FR", "France" := "FR",
    "Italien" := "IT", "Italy" := "IT",
    "Spanien" := "ES", "Spain" := "ES",
    "Belgien" := "BE", "Belgium" := "BE",
    "Niederlande" := "NL", "Netherlands" := "NL",
    "Großbritannien" := "UK", "United Kingdom" := "UK", "Vereinigtes Königreich" := "UK",
    "Polen" := "PL", "Poland" := "PL",
    "Russland" := "RU", "Russia" := "RU",
    "Kasachstan" := "KZ", "Kazakhstan" := "KZ",
    "Luxemburg" := "LUX", "Luxembourg" := "LUX",
    "Slowakei" := "SK", "Slovakia" := "SK",
    "Türkei" := "TR", "Turkey" := "TR",
    "Kenia" := "KE", "Kenya" := "KE",
    "Mongolei" := "MN", "Mongolia" := "MN",
    "Argentinien" := "AR", "Argentina" := "AR",
    "Brasilien" := "BR", "Brazil" := "BR",
    "Indien" := "IN", "India" := "IN",
    "Japan" := "JP",
    "Sri Lanka" := "LK",
    "Portugal" := "PT",
    "Rumänien" := "RO", "Romania" := "RO",
    "Thailand" := "TH"]

  /** extractCountryCode: the code for a known country name (German or English), else None. */
  function ExtractCountryCode(countryName: string): (r: Option<string>)
    ensures r.Some? <==> countryName in CountryCodes
    ensures r.Some? ==> r.value == CountryCodes[countryName]
  {
    if countryName in CountryCodes then Some(CountryCodes[countryName]) else None
  }

  /** Where an uploaded image for `category` is stored, as recorded in the question. */
  function ImagePath(category: string, originalName: string, correctAnswer: string, now: nat, randomId: string): string {
    "assets/images/" + FolderName(category) + "/" +
      ImageFilename(category, originalName, ExtractCountryCode(correctAnswer), now, randomId)
  }

  // ===================================================================
  // The store and its endpoints
  // ===================================================================

  datatype Status = Ok | BadRequest | NotFound | Conflict | ServerError

  /** The `questionData` form field: absent or empty, not JSON, or a parsed question object. */
  datatype Payload = Missing | Malformed | Parsed(question: Question)

  /** An uploaded image file, known by its original file name. */
  datatype Upload = Upload(originalName: string)

  /**
   * What the outside world answers during one request: the clock, the random
   * hex suffix, whether writing the uploaded image succeeded and whether
   * writing quizData.json succeeded.
   */
  datatype Env = Env(now: nat, randomId: string, imageWritten: bool, saved: bool)

  /** The id set after a request: an id is kept by success and by a 400, dropped by a 500. */
  function RequestsAfter(before: set<string>, requestId: string, status: Status): set<string> {
    if requestId != "" && (status == Ok || status == BadRequest) then before + {requestId} else before
  }

  lemma DedupSnoc(xs: seq<Question>, q: Question)
    ensures DedupByKey(xs + [q]) ==
      if AllKey(q) in KeysOf(DedupByKey(xs)) then DedupByKey(xs) else DedupByKey(xs) + [q]
  {
    assert (xs + [q])[..|xs|] == xs;
  }

  lemma PoolSnoc(names: seq<string>, k: nat, lists: map<string, seq<Question>>)
    requires k < |names|
    ensures Pool(names[..k + 1], lists) == Pool(names[..k], lists) + Section(names[k], lists)
  {
    assert names[..k + 1][..k] == names[..k];
  }

  /**
   * The collection loop of updateAllCategory: every category but "all", in
   * order, keeping a question only if its key is not in the seen set.
   */
  method CollectAll(names: seq<string>, lists: map<string, seq<Question>>) returns (allQuestions: seq<Question>)
    requires forall n :: n in names ==> n in lists
    ensures allQuestions == DedupByKey(Pool(names, lists))
  {
    allQuestions := [];
    var seenQuestions: set<string> := {};
    var k := 0;
    while k < |names|
      invariant 0 <= k <= |names|
      invariant allQuestions == DedupByKey(Pool(names[..k], lists))
      invariant seenQuestions == KeysOf(allQuestions)
    {
      var category := names[k];
      PoolSnoc(names, k, lists);
      if category != "all" {
        allQuestions, seenQuestions :=
          CollectCategory(Pool(names[..k], lists), lists[category], allQuestions, seenQuestions);
      } else {
        assert Pool(names[..k], lists) + Section(category, lists) == Pool(names[..k], lists);
      }
      k := k + 1;
    }
    assert names[..|names|] == names;
  }

  /**
   * The inner loop of the "all" rebuild: walk one category's list and append
   * each question whose key has not been seen yet.
   */
  method CollectCategory(ghost done: seq<Question>, items: seq<Question>, acc: seq<Question>, seen: set<string>)
    returns (allQuestions: seq<Question>, seenQuestions: set<string>)
    requires acc == DedupByKey(done) && seen == KeysOf(acc)
    ensures allQuestions == DedupByKey(done + items)
    ensures seenQuestions == KeysOf(allQuestions)
  {
    allQuestions, seenQuestions := acc, seen;
    var j := 0;
    assert done + items[..0] == done;
    while j < |items|
      invariant 0 <= j <= |items|
      invariant allQuestions == DedupByKey(done + items[..j])
      invariant seenQuestions == KeysOf(allQuestions)
    {
      assert done + items[..j + 1] == (done + items[..j]) + [items[j]];
      DedupSnoc(done + items[..j], items[j]);
      var key := AllKey(items[j]);
      if key !in seenQuestions {
        KeysOfAppend(allQuestions, items[j]);
        allQuestions := allQuestions + [items[j]];
        seenQuestions := seenQuestions + {key};
      }
      j := j + 1;
    }
    assert items[..|items|] == items;
  }

  /** The question add-question stores: with the path of the uploaded image, if there is one. */
  function StoredQuestion(data: Question, category: string, upload: Option<Upload>, env: Env): Question {
    if upload.Some?
    then data.(image := Some(ImagePath(category, upload.value.originalName, data.correctAnswer, env.now, env.randomId)))
    else data
  }

  /** The question edit-question stores: the new image when one was uploaded, else the original's image. */
  function EditedQuestion(original: Question, data: Question, category: string, upload: Option<Upload>, env: Env): Question {
    data.(image :=
      if upload.Some?
      then Some(ImagePath(category, upload.value.originalName, data.correctAnswer, env.now, env.randomId))
      else original.image)
  }

  /**
   * One map's share of delete-category: `delete map[name]` when the map holds
   * `name`, reporting how many questions went with it.
   */
  method DeleteFromMap(c: Catalog, name: string) returns (after: Catalog, count: nat)
    requires c.Valid()
    ensures after == c.Remove(name) && after.Valid()
    ensures name !in after.entries
    ensures count == |ListOf(c, name)|
  {
    if name in c.entries {
      count := |c.entries[name]|;
      after := c.Remove(name);
    } else {
      RemoveAbsent(c, name);
      count := 0;
      after := c;
    }
  }

  /**
   * The deleting part of delete-category: remove `name` from the legacy maps
   * that hold it, counting their questions and naming those modes, and from
   * the unified map.
   */
  method DropCategory(d: Document, name: string) returns (next: Document, deletedQuestions: nat, affectedModes: seq<string>)
    requires d.Valid()
    ensures next == CategoryDropped(d, name) && next.Valid()
    ensures deletedQuestions == |ListOf(d.imageBased, name)| + |ListOf(d.timeLimited, name)|
    ensures affectedModes ==
      (if name in d.imageBased.entries then ["image-based"] else []) +
      (if name in d.timeLimited.entries then ["time-limited"] else [])
  {
    affectedModes := [];
    if name in d.imageBased.entries {
      affectedModes := affectedModes + ["image-based"];
    }
    if name in d.timeLimited.entries {
      affectedModes := affectedModes + ["time-limited"];
    }
    var imageBased, fromImageBased := DeleteFromMap(d.imageBased, name);
    var timeLimited, fromTimeLimited := DeleteFromMap(d.timeLimited, name);
    var questions, _ := DeleteFromMap(d.questions, name);
    deletedQuestions := fromImageBased + fromTimeLimited;
    next := Document(questions, imageBased, timeLimited);
  }

  class Store {
    var questions: Catalog
    var imageBased: Catalog
    var timeLimited: Catalog
    var processedRequests: set<string>

    ghost predicate Valid()
      reads this
    {
      questions.Valid() && imageBased.Valid() && timeLimited.Valid() && "" !in processedRequests
    }

    function Doc(): Document
      reads this
    {
      Document(questions, imageBased, timeLimited)
    }

    /** Server start-up: load the document and recompute "all" once. */
    constructor (loaded: Document)
      requires loaded.Valid()
      ensures Valid() && Doc() == Synced(loaded) && processedRequests == {}
    {
      questions := loaded.questions;
      imageBased := loaded.imageBased;
      timeLimited := loaded.timeLimited;
      processedRequests := {};
      new;
      UpdateAllCategory();
    }

    /** updateAllCategory: rebuild "all" from the unified map and copy it into all three maps. */
    method UpdateAllCategory()
      requires Valid()
      modifies this
      ensures Valid()
      ensures Doc() == Synced(old(Doc()))
      ensures processedRequests == old(processedRequests)
    {
      ghost var before := Doc();
      imageBased := imageBased.Put("all", []);
      timeLimited := timeLimited.Put("all", []);
      questions := questions.Put("all", []);
      var allQuestions := CollectAll(questions.keys, questions.entries);
      AllOfIgnoresAll(before.questions, []);
      assert allQuestions == AllOf(before.questions);
      PutTwice(before.questions, "all", [], allQuestions);
      PutTwice(before.imageBased, "all", [], allQuestions);
      PutTwice(before.timeLimited, "all", [], allQuestions);
      imageBased := imageBased.Put("all", allQuestions);
      timeLimited := timeLimited.Put("all", allQuestions);
      questions := questions.Put("all", allQuestions);
    }

    /** Restore the document read at the start of a request whose final write failed. */
    method Restore(d: Document)
      requires d.Valid()
      modifies this
      ensures Doc() == d && processedRequests == old(processedRequests)
    {
      questions := d.questions;
      imageBased := d.imageBased;
      timeLimited := d.timeLimited;
    }

    /**
     * The shared tail of the editing endpoints: install the edited maps,
     * recompute "all" and write quizData.json; when the write fails the
     * document read at the start of the request is put back.
     */
    method Commit(next: Document, saved: bool) returns (ok: bool)
      requires Valid() && next.Valid()
      modifies this
      ensures Valid() && processedRequests == old(processedRequests)
      ensures ok == saved
      ensures ok ==> Doc() == Synced(next)
      ensures !ok ==> Doc() == old(Doc())
    {
      var before := Doc();
      questions := next.questions;
      imageBased := next.imageBased;
      timeLimited := next.timeLimited;
      UpdateAllCategory();
      if !saved {
        Restore(before);
        return false;
      }
      return true;
    }

    /** POST /api/add-question. */
    method AddQuestion(mode: string, category: string, payload: Payload, requestId: string,
                       upload: Option<Upload>, env: Env) returns (status: Status)
      requires Valid()
      modifies this
      ensures Valid()
      ensures status == Conflict <==> requestId != "" && requestId in old(processedRequests)
      ensures status == BadRequest <==>
        !(requestId != "" && requestId in old(processedRequests)) &&
        (mode == "" || category == "" || !payload.Parsed? || IsAllCategory(category))
      ensures status == ServerError <==>
        !(requestId != "" && requestId in old(processedRequests)) &&
        mode != "" && category != "" && payload.Parsed? && !IsAllCategory(category) &&
        ((upload.Some? && !env.imageWritten) || !env.saved)
      ensures status == Ok ==>
        Doc() == WithQuestionAdded(old(Doc()), category, StoredQuestion(payload.question, category, upload, env))
      ensures status != Ok ==> Doc() == old(Doc())
      ensures processedRequests == RequestsAfter(old(processedRequests), requestId, status)
    {
      if requestId != "" {
        if requestId in processedRequests {
          return Conflict;
        }
        processedRequests := processedRequests + {requestId};
      }
      // missing fields, the protected "all" category, unparsable question data
      if mode == "" || category == "" || payload.Missing? || IsAllCategory(category) || payload.Malformed? {
        return BadRequest;
      }
      var ok := InsertQuestion(category, payload.question, upload, env);
      if !ok {
        processedRequests := processedRequests - {requestId};
        return ServerError;
      }
      return Ok;
    }

    /**
     * The second half of add-question, once the request is accepted: store
     * the uploaded image, append the question to `category` in all three
     * maps, recompute "all" and save.
     */
    method InsertQuestion(category: string, questionData: Question, upload: Option<Upload>, env: Env)
      returns (ok: bool)
      requires Valid()
      modifies this
      ensures Valid() && processedRequests == old(processedRequests)
      ensures ok <==> !(upload.Some? && !env.imageWritten) && env.saved
      ensures ok ==> Doc() == WithQuestionAdded(old(Doc()), category, StoredQuestion(questionData, category, upload, env))
      ensures !ok ==> Doc() == old(Doc())
    {
      var stored := questionData;
      if upload.Some? {
        if !env.imageWritten {
          return false;
        }
        var path := ImagePath(category, upload.value.originalName, questionData.correctAnswer, env.now, env.randomId);
        stored := stored.(image := Some(path));
      }
      ok := Commit(Document(Appended(questions, category, stored),
                            Appended(imageBased, category, stored),
                            Appended(timeLimited, category, stored)), env.saved);
    }

    /** PUT /api/edit-question. */
    method EditQuestion(mode: string, category: string, questionIndex: Option<int>, payload: Payload,
                        requestId: string, upload: Option<Upload>, env: Env) returns (status: Status)
      requires Valid()
      modifies this
      ensures Valid()
      ensures status == Conflict <==> requestId != "" && requestId in old(processedRequests)
      ensures status == BadRequest <==>
        !(requestId != "" && requestId in old(processedRequests)) &&
        (mode == "" || category == "" || questionIndex.None? || !payload.Parsed? || IsAllCategory(category))
      ensures status == NotFound <==>
        !(requestId != "" && requestId in old(processedRequests)) &&
        mode != "" && category != "" && questionIndex.Some? && payload.Parsed? && !IsAllCategory(category) &&
        (category !in old(questions.entries) ||
         !(0 <= questionIndex.value < |old(questions.entries)[category]|))
      ensures status == ServerError ==> (upload.Some? && !env.imageWritten) || !env.saved
      ensures status == Ok ==>
        category in old(questions.entries) && questionIndex.Some? && payload.Parsed? &&
        0 <= questionIndex.value < |old(questions.entries)[category]| &&
        Doc() == WithQuestionEdited(old(Doc()), category, questionIndex.value,
                   EditedQuestion(old(questions.entries)[category][questionIndex.value], payload.question, category, upload, env))
      ensures status != Ok ==> Doc() == old(Doc())
      ensures (status == Ok || status == ServerError) <==>
        !(requestId != "" && requestId in old(processedRequests)) &&
        mode != "" && category != "" && questionIndex.Some? && payload.Parsed? && !IsAllCategory(category) &&
        category in old(questions.entries) && 0 <= questionIndex.value < |old(questions.entries)[category]|
      ensures processedRequests == RequestsAfter(old(processedRequests), requestId, if status == NotFound then Ok else status)
    {
      if requestId != "" {
        if requestId in processedRequests {
          return Conflict;
        }
        processedRequests := processedRequests + {requestId};
      }
      // missing fields, the protected "all" category, unparsable question data
      if mode == "" || category == "" || questionIndex.None? || payload.Missing? ||
         IsAllCategory(category) || payload.Malformed? {
        return BadRequest;
      }
      var index := questionIndex.value;
      if category !in questions.entries || index < 0 || index >= |questions.entries[category]| {
        return NotFound;
      }
      var ok := ReplaceQuestion(category, index, payload.question, upload, env);
      if !ok {
        processedRequests := processedRequests - {requestId};
        return ServerError;
      }
      return Ok;
    }

    /**
     * The second half of edit-question, once the question is found: store the
     * new image if one was uploaded (otherwise keep the old image), replace the
     * question in the unified map and its first structural match in each
     * sibling map, recompute "all" and save.
     */
    method ReplaceQuestion(category: string, index: nat, questionData: Question, upload: Option<Upload>, env: Env)
      returns (ok: bool)
      requires Valid() && category in questions.entries && index < |questions.entries[category]|
      modifies this
      ensures Valid() && processedRequests == old(processedRequests)
      ensures ok <==> !(upload.Some? && !env.imageWritten) && env.saved
      ensures ok ==> Doc() == WithQuestionEdited(old(Doc()), category, index,
                                EditedQuestion(old(questions.entries)[category][index], questionData, category, upload, env))
      ensures !ok ==> Doc() == old(Doc())
    {
      var unifiedQuestions := questions.entries[category];
      var originalQuestion := unifiedQuestions[index];
      var edited := questionData;
      if upload.Some? {
        if !env.imageWritten {
          return false;
        }
        var path := ImagePath(category, upload.value.originalName, questionData.correctAnswer, env.now, env.randomId);
        edited := edited.(image := Some(path));
      } else {
        edited := edited.(image := originalQuestion.image);
      }
      ok := Commit(Document(questions.Put(category, unifiedQuestions[index := edited]),
                            ReplaceFirstMatch(imageBased, category, originalQuestion, edited),
                            ReplaceFirstMatch(timeLimited, category, originalQuestion, edited)), env.saved);
    }

    /** DELETE /api/delete-question (no duplicate-request guard). */
    method DeleteQuestion(mode: string, category: string, questionIndex: Option<int>, saved: bool)
      returns (status: Status)
      requires Valid()
      modifies this
      ensures Valid()
      ensures processedRequests == old(processedRequests)
      ensures status == BadRequest <==> mode == "" || category == "" || questionIndex.None?
      ensures status == NotFound <==>
        mode != "" && category != "" && questionIndex.Some? &&
        (category !in old(questions.entries) ||
         !(0 <= questionIndex.value < |old(questions.entries)[category]|))
      ensures status == ServerError <==>
        mode != "" && category != "" && questionIndex.Some? &&
        category in old(questions.entries) && 0 <= questionIndex.value < |old(questions.entries)[category]| &&
        !saved
      ensures status == Ok ==>
        category in old(questions.entries) && questionIndex.Some? &&
        0 <= questionIndex.value < |old(questions.entries)[category]| &&
        Doc() == WithQuestionDeleted(old(Doc()), category, questionIndex.value)
      ensures status != Ok ==> Doc() == old(Doc())
    {
      if mode == "" || category == "" || questionIndex.None? {
        return BadRequest;
      }
      if category !in questions.entries {
        return NotFound;
      }
      var unifiedQuestions := questions.entries[category];
      var index := questionIndex.value;
      if index < 0 || index >= |unifiedQuestions| {
        return NotFound;
      }
      var questionToDelete := unifiedQuestions[index];
      var ok := Commit(Document(questions.Put(category, RemoveAt(unifiedQuestions, index)),
                                RemoveFirstMatch(imageBased, category, questionToDelete),
                                RemoveFirstMatch(timeLimited, category, questionToDelete)), saved);
      return if ok then Ok else ServerError;
    }

    /** DELETE /api/delete-category. */
    method DeleteCategory(categoryName: string, saved: bool)
      returns (status: Status, deletedQuestions: nat, affectedModes: seq<string>)
      requires Valid()
      modifies this
      ensures Valid()
      ensures processedRequests == old(processedRequests)
      ensures status == BadRequest <==> categoryName == ""
      ensures status == ServerError <==> categoryName != "" && !saved
      ensures status == Ok ==> Doc() == WithCategoryDeleted(old(Doc()), categoryName)
      ensures status != Ok ==> Doc() == old(Doc())
      ensures status == Ok ==>
        deletedQuestions == |ListOf(old(imageBased), categoryName)| + |ListOf(old(timeLimited), categoryName)| &&
        affectedModes ==
          (if categoryName in old(imageBased.entries) then ["image-based"] else []) +
          (if categoryName in old(timeLimited.entries) then ["time-limited"] else [])
    {
      deletedQuestions := 0;
      affectedModes := [];
      if categoryName == "" {
        return BadRequest, deletedQuestions, affectedModes;
      }
      var next;
      next, deletedQuestions, affectedModes := DropCategory(Doc(), categoryName);
      var ok := Commit(next, saved);
      if !ok {
        return ServerError, deletedQuestions, affectedModes;
      }
      return Ok, deletedQuestions, affectedModes;
    }

    /** POST /api/add-category (it does not recompute "all"). */
    method AddCategory(categoryName: string, modes: Option<seq<string>>, saved: bool) returns (status: Status)
      requires Valid()
      modifies this
      ensures Valid()
      ensures processedRequests == old(processedRequests)
      ensures status == BadRequest <==> categoryName == "" || modes.None?
      ensures status == ServerError <==> categoryName != "" && modes.Some? && !saved
      ensures status == Ok ==> Doc() == WithCategoryAdded(old(Doc()), categoryName, modes.value)
      ensures status != Ok ==> Doc() == old(Doc())
    {
      if categoryName == "" || modes.None? {
        return BadRequest;
      }
      var before := Doc();
      var ms := modes.value;
      var i := 0;
      while i < |ms|
        invariant 0 <= i <= |ms|
        invariant Valid()
        invariant Doc() == WithCategoryAdded(before, categoryName, ms[..i])
        invariant processedRequests == old(processedRequests)
      {
        WithCategoryAddedStep(before, categoryName, ms, i);
        var dataSource := DataSourceFor(ms[i]);
        if dataSource == "image-based" {
          imageBased := Ensured(imageBased, categoryName);
        } else if dataSource == "questions" {
          questions := Ensured(questions, categoryName);
        }
        i := i + 1;
      }
      assert ms[..|ms|] == ms;
      if !saved {
        Restore(before);
        return ServerError;
      }
      return Ok;
    }
  }
}
