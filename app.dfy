/**
 * The pieces of the application shell that the quiz relies on: the
 * Fisher-Yates shuffle, the acceptance rules for the player name, and the
 * selection of the learning cards shown for a category.
 */
module App {
  import opened QuizData

  // ----- shuffleArray -----

  /**
   * The random choices of one shuffle: for every position i the index j that
   * `Math.floor(Math.random() * (i + 1))` produced, so 0 <= j <= i. Entry 0 is
   * never used.
   */
  predicate ValidPicks(picks: seq<nat>, n: nat) {
    |picks| == n && forall i :: 0 <= i < n ==> picks[i] <= i
  }

  /** Exchanging the cells i and j. */
  function Swap<T>(s: seq<T>, i: nat, j: nat): seq<T>
    requires i < |s| && j < |s|
  {
    s[i := s[j]][j := s[i]]
  }

  lemma SwapPermutes<T>(s: seq<T>, i: nat, j: nat)
    requires i < |s| && j < |s|
    ensures |Swap(s, i, j)| == |s| && multiset(Swap(s, i, j)) == multiset(s)
  {
  }

  /** The swaps the loop performs for positions i, i - 1, ..., 1, in that order. */
  function ShuffleDown<T>(s: seq<T>, picks: seq<nat>, i: nat): seq<T>
    requires ValidPicks(picks, |s|) && (i < |s| || i == 0)
    decreases i
  {
    if i == 0 then s else ShuffleDown(Swap(s, i, picks[i]), picks, i - 1)
  }

  /** The array the shuffle leaves behind for the given random choices. */
  function Shuffle<T>(s: seq<T>, picks: seq<nat>): seq<T>
    requires ValidPicks(picks, |s|)
  {
    ShuffleDown(s, picks, if |s| == 0 then 0 else |s| - 1)
  }

  lemma {:induction false} ShuffleDownPermutes<T>(s: seq<T>, picks: seq<nat>, i: nat)
    requires ValidPicks(picks, |s|) && (i < |s| || i == 0)
    ensures |ShuffleDown(s, picks, i)| == |s|
    ensures multiset(ShuffleDown(s, picks, i)) == multiset(s)
    decreases i
  {
    if i > 0 {
      SwapPermutes(s, i, picks[i]);
      ShuffleDownPermutes(Swap(s, i, picks[i]), picks, i - 1);
    }
  }

  /** Whatever the random choices, the shuffle is a permutation of its input. */
  lemma ShufflePermutes<T>(s: seq<T>, picks: seq<nat>)
    requires ValidPicks(picks, |s|)
    ensures |Shuffle(s, picks)| == |s|
    ensures multiset(Shuffle(s, picks)) == multiset(s)
  {
    ShuffleDownPermutes(s, picks, if |s| == 0 then 0 else |s| - 1);
  }

  /** The swaps for positions up to i never touch a cell above i. */
  lemma {:induction false} ShuffleDownKeepsAbove<T>(s: seq<T>, picks: seq<nat>, i: nat, k: nat)
    requires ValidPicks(picks, |s|) && (i < |s| || i == 0)
    requires i < k < |s|
    ensures |ShuffleDown(s, picks, i)| == |s|
    ensures ShuffleDown(s, picks, i)[k] == s[k]
    decreases i
  {
    ShuffleDownPermutes(s, picks, i);
    if i > 0 {
      ShuffleDownKeepsAbove(Swap(s, i, picks[i]), picks, i - 1, k);
    }
  }

  /**
   * The last cell is settled by the first swap: it ends up holding the
   * element the first random choice picked, at an index no greater than its own.
   */
  lemma ShuffleSettlesLast<T>(s: seq<T>, picks: seq<nat>)
    requires ValidPicks(picks, |s|) && |s| > 1
    ensures |Shuffle(s, picks)| == |s|
    ensures picks[|s| - 1] <= |s| - 1
    ensures Shuffle(s, picks)[|s| - 1] == s[picks[|s| - 1]]
  {
    var n := |s|;
    ShuffleDownKeepsAbove(Swap(s, n - 1, picks[n - 1]), picks, n - 2, n - 1);
  }

  /** Choosing j = i at every step (no exchange) leaves the order as it was. */
  lemma {:induction false} ShuffleDownIdentity<T>(s: seq<T>, picks: seq<nat>, i: nat)
    requires ValidPicks(picks, |s|) && (i < |s| || i == 0)
    requires forall k :: 0 <= k < |s| ==> picks[k] == k
    ensures ShuffleDown(s, picks, i) == s
    decreases i
  {
    if i > 0 {
      assert Swap(s, i, picks[i]) == s;
      ShuffleDownIdentity(s, picks, i - 1);
    }
  }

  /** `shuffleArray(array)`: swaps cells in place from the last position down to 1. */
  method ShuffleArray<T>(a: array<T>, picks: seq<nat>)
    requires ValidPicks(picks, a.Length)
    modifies a
    ensures a[..] == Shuffle(old(a[..]), picks)
    ensures multiset(a[..]) == multiset(old(a[..]))
  {
    ShufflePermutes(a[..], picks);
    ghost var target := Shuffle(a[..], picks);
    if a.Length == 0 {
      return;
    }
    var i := a.Length - 1;
    while i > 0
      invariant 0 <= i < a.Length
      invariant ShuffleDown(a[..], picks, i) == target
    {
      var j := picks[i];
      ghost var after := Swap(a[..], i, j);
      a[i], a[j] := a[j], a[i];
      assert a[..] == after;
      i := i - 1;
    }
  }

  // ----- player name -----

  /**
   * The characters `String.prototype.trim` removes: the ECMAScript white
   * space (tab, vertical tab, form feed, space, no-break space, the byte
   * order mark and the Unicode space separators) and the line terminators.
   */
  predicate IsTrimmable(c: char) {
    var n := c as int;
    n == 0x09 || n == 0x0A || n == 0x0B || n == 0x0C || n == 0x0D || n == 0x20 ||
    n == 0xA0 || n == 0x1680 || (0x2000 <= n <= 0x200A) || n == 0x2028 || n == 0x2029 ||
    n == 0x202F || n == 0x205F || n == 0x3000 || n == 0xFEFF
  }

  function TrimStart(s: string): (r: string)
    ensures |r| <= |s| && r == s[|s| - |r|..]
    ensures forall k :: 0 <= k < |s| - |r| ==> IsTrimmable(s[k])
    ensures r == [] || !IsTrimmable(r[0])
  {
    if s != [] && IsTrimmable(s[0]) then TrimStart(s[1..]) else s
  }

  function TrimEnd(s: string): (r: string)
    ensures |r| <= |s| && r == s[..|r|]
    ensures forall k :: |r| <= k < |s| ==> IsTrimmable(s[k])
    ensures r == [] || !IsTrimmable(r[|r| - 1])
  {
    if s != [] && IsTrimmable(s[|s| - 1]) then TrimEnd(s[..|s| - 1]) else s
  }

  /** No white space at either end. */
  predicate Trimmed(s: string) {
    s == [] || (!IsTrimmable(s[0]) && !IsTrimmable(s[|s| - 1]))
  }

  /** `trim()`: the input without its leading and trailing white space. */
  function Trim(s: string): (r: string)
    ensures |r| <= |s| && Trimmed(r)
  {
    var t := TrimStart(s);
    var r := TrimEnd(t);
    assert r != [] ==> r[0] == t[0];
    r
  }

  /** A string without white space at either end is its own trimmed form. */
  lemma TrimFixes(s: string)
    requires Trimmed(s)
    ensures Trim(s) == s
  {
    assert TrimStart(s) == s;
    assert TrimEnd(s) == s;
  }

  lemma TrimIdempotent(s: string)
    ensures Trim(Trim(s)) == Trim(s)
  {
    TrimFixes(Trim(s));
  }

  /**
   * `.length` of a JavaScript string: UTF-16 code units, so a character
   * outside the Basic Multilingual Plane counts twice.
   */
  function Utf16Length(s: string): (n: nat)
    ensures |s| <= n <= 2 * |s|
  {
    if s == [] then 0
    else Utf16Length(s[..|s| - 1]) + (if s[|s| - 1] as int >= 0x10000 then 2 else 1)
  }

  const Anonymous := "Anonym"
  const MaxNameLength := 20

  /** `newName && newName.length <= 20`: a name the handlers store. */
  predicate Acceptable(name: string) {
    name != "" && Utf16Length(name) <= MaxNameLength
  }

  /** A stored name is always acceptable and has no white space at either end. */
  predicate WellFormedName(name: string) {
    Acceptable(name) && Trimmed(name)
  }

  lemma AnonymousIsWellFormed()
    ensures WellFormedName(Anonymous)
  {
  }

  /** The player-name part of appState. */
  class AppState {
    var playerName: string

    ghost predicate Valid()
      reads this
    {
      WellFormedName(playerName)
    }

    constructor ()
      ensures Valid() && playerName == Anonymous
    {
      playerName := Anonymous;
    }

    /**
     * `confirmPlayerNameChange`: a trimmed name of 1 to 20 units becomes the
     * player name, a longer one is refused, an empty one resets to "Anonym".
     */
    method ConfirmPlayerNameChange(input: string)
      requires Valid()
      modifies this
      ensures Valid()
      ensures Acceptable(Trim(input)) ==> playerName == Trim(input)
      ensures Utf16Length(Trim(input)) > MaxNameLength ==> playerName == old(playerName)
      ensures Trim(input) == "" ==> playerName == Anonymous
    {
      var newName := Trim(input);
      if newName != "" && Utf16Length(newName) <= MaxNameLength {
        playerName := newName;
      } else if Utf16Length(newName) > MaxNameLength {
      } else {
        assert newName == [];
        AnonymousIsWellFormed();
        playerName := Anonymous;
      }
    }

    /** `savePlayerName`: only a trimmed name of 1 to 20 units is stored. */
    method SavePlayerName(input: string)
      requires Valid()
      modifies this
      ensures Valid()
      ensures Acceptable(Trim(input)) ==> playerName == Trim(input)
      ensures !Acceptable(Trim(input)) ==> playerName == old(playerName)
    {
      var newName := Trim(input);
      if newName != "" && Utf16Length(newName) > 0 && Utf16Length(newName) <= MaxNameLength {
        playerName := newName;
      }
    }
  }

  // ----- learning content -----

  /** A learning card: the question spread together with its category and origin. */
  datatype LearnItem = LearnItem(question: Question, category: string, sourceType: string)

  /** The questions of one category that have an image, tagged, in list order. */
  function ItemsOf(qs: seq<Question>, category: string, source: string): seq<LearnItem> {
    if qs == [] then []
    else
      ItemsOf(qs[..|qs| - 1], category, source) +
        (if HasImage(qs[|qs| - 1]) then [LearnItem(qs[|qs| - 1], category, source)] else [])
  }

  lemma {:induction false} ItemsOfSelects(qs: seq<Question>, category: string, source: string, x: LearnItem)
    requires x in ItemsOf(qs, category, source)
    ensures HasImage(x.question) && x.question in qs
    ensures x.category == category && x.sourceType == source
  {
    var p := qs[..|qs| - 1];
    assert qs == p + [qs[|qs| - 1]];
    if x in ItemsOf(p, category, source) {
      ItemsOfSelects(p, category, source, x);
    }
  }

  lemma {:induction false} ItemsOfComplete(qs: seq<Question>, category: string, source: string, q: Question)
    requires q in qs && HasImage(q)
    ensures LearnItem(q, category, source) in ItemsOf(qs, category, source)
  {
    var p := qs[..|qs| - 1];
    assert qs == p + [qs[|qs| - 1]];
    if q != qs[|qs| - 1] {
      ItemsOfComplete(p, category, source, q);
    }
  }

  /** The cards of the first n categories, skipping the literal key "all". */
  function AllItems(c: Catalog, n: nat, source: string): seq<LearnItem>
    requires n <= |c.keys|
  {
    if n == 0 then []
    else
      var k := c.keys[n - 1];
      AllItems(c, n - 1, source) +
        (if k != "all" && k in c.entries then ItemsOf(c.entries[k], k, source) else [])
  }

  lemma {:induction false} AllItemsSelect(c: Catalog, n: nat, source: string, x: LearnItem)
    requires n <= |c.keys| && x in AllItems(c, n, source)
    ensures HasImage(x.question) && x.category != "all" && x.category in c.entries
    ensures x.question in c.entries[x.category] && x.sourceType == source
  {
    var k := c.keys[n - 1];
    if x in AllItems(c, n - 1, source) {
      AllItemsSelect(c, n - 1, source, x);
    } else {
      ItemsOfSelects(c.entries[k], k, source, x);
    }
  }

  lemma {:induction false} AllItemsComplete(c: Catalog, n: nat, source: string, k: string, q: Question)
    requires n <= |c.keys| && k in c.keys[..n]
    requires k != "all" && k in c.entries && q in c.entries[k] && HasImage(q)
    ensures LearnItem(q, k, source) in AllItems(c, n, source)
  {
    if c.keys[n - 1] != k {
      assert k in c.keys[..n - 1] by {
        assert c.keys[..n] == c.keys[..n - 1] + [c.keys[n - 1]];
      }
      AllItemsComplete(c, n - 1, source, k, q);
    } else {
      ItemsOfComplete(c.entries[k], k, source, q);
    }
  }

  /** The cards before any deduplication: all categories for "all", else the one named. */
  function Candidates(c: Catalog, category: string, source: string): seq<LearnItem> {
    if category == "all" then AllItems(c, |c.keys|, source)
    else if category in c.entries then ItemsOf(c.entries[category], category, source)
    else []
  }

  function Images(s: seq<LearnItem>): set<Option<string>> {
    set x | x in s :: x.question.image
  }

  lemma ImagesAppend(s: seq<LearnItem>, y: LearnItem)
    ensures Images(s + [y]) == Images(s) + {y.question.image}
  {
    assert forall x :: x in s + [y] <==> x in s || x == y;
  }

  /** Keeps the first card for every image, the `seenImages` filter. */
  function DedupByImage(s: seq<LearnItem>): seq<LearnItem> {
    if s == [] then []
    else
      var r := DedupByImage(s[..|s| - 1]);
      if s[|s| - 1].question.image in Images(r) then r else r + [s[|s| - 1]]
  }

  lemma {:induction false} DedupCovers(s: seq<LearnItem>)
    ensures forall x :: x in DedupByImage(s) ==> x in s
    ensures Images(DedupByImage(s)) == Images(s)
  {
    if s != [] {
      var p := s[..|s| - 1];
      assert s == p + [s[|s| - 1]];
      DedupCovers(p);
      ImagesAppend(p, s[|s| - 1]);
      ImagesAppend(DedupByImage(p), s[|s| - 1]);
    }
  }

  /** No two kept cards share an image. */
  lemma {:induction false} DedupDistinct(s: seq<LearnItem>)
    ensures forall i, j :: 0 <= i < j < |DedupByImage(s)| ==>
      DedupByImage(s)[i].question.image != DedupByImage(s)[j].question.image
  {
    if s != [] {
      DedupDistinct(s[..|s| - 1]);
    }
  }

  /** A kept card occurs in the input no later than any card with the same image. */
  lemma {:induction false} DedupKeepsFirst(s: seq<LearnItem>, x: LearnItem, i: nat)
    requires x in DedupByImage(s) && i < |s| && s[i].question.image == x.question.image
    ensures x in s[..i + 1]
  {
    var p := s[..|s| - 1];
    var y := s[|s| - 1];
    assert s == p + [y];
    DedupCovers(p);
    if x in DedupByImage(p) {
      if i < |p| {
        DedupKeepsFirst(p, x, i);
        assert p[..i + 1] == s[..i + 1];
      } else {
        assert s[..i + 1] == s;
      }
    } else {
      assert i == |p|;
      assert s[..i + 1] == s;
    }
  }

  /**
   * The cards `renderLearningContent` collects before sorting: the unified
   * map when it exists, otherwise the legacy image-based map with one card
   * per image.
   */
  function LearningContent(d: QuizDocument, category: string): seq<LearnItem> {
    if d.questions.Some? then Candidates(d.questions.value, category, "unified")
    else if d.imageBased.Some? then DedupByImage(Candidates(d.imageBased.value, category, "image-based"))
    else []
  }

  /** Every card has an image and comes from the selected map and categories. */
  lemma LearningContentSelects(d: QuizDocument, category: string, x: LearnItem)
    requires x in LearningContent(d, category)
    ensures HasImage(x.question)
    ensures category == "all" ==> x.category != "all"
    ensures category != "all" ==> x.category == category
    ensures d.questions.Some? ==>
      x.sourceType == "unified" && x.category in d.questions.value.entries &&
      x.question in d.questions.value.entries[x.category]
    ensures d.questions.None? ==>
      d.imageBased.Some? && x.sourceType == "image-based" &&
      x.category in d.imageBased.value.entries && x.question in d.imageBased.value.entries[x.category]
  {
    var c := if d.questions.Some? then d.questions.value else d.imageBased.value;
    var source := if d.questions.Some? then "unified" else "image-based";
    if d.questions.None? {
      DedupCovers(Candidates(c, category, source));
    }
    if category == "all" {
      AllItemsSelect(c, |c.keys|, source, x);
    } else {
      ItemsOfSelects(c.entries[category], category, source, x);
    }
  }

  /** The unified path leaves out no question with an image from the selected categories. */
  lemma UnifiedContentComplete(d: QuizDocument, category: string, k: string, q: Question)
    requires d.questions.Some? && k in d.questions.value.keys && k in d.questions.value.entries
    requires q in d.questions.value.entries[k] && HasImage(q)
    requires if category == "all" then k != "all" else k == category
    ensures LearnItem(q, k, "unified") in LearningContent(d, category)
  {
    var c := d.questions.value;
    if category == "all" {
      assert c.keys[..|c.keys|] == c.keys;
      AllItemsComplete(c, |c.keys|, "unified", k, q);
    } else {
      ItemsOfComplete(c.entries[k], k, "unified", q);
    }
  }

  /**
   * The legacy path keeps one card per image, the first in category order,
   * and every image of the selected image-based categories still appears.
   */
  lemma LegacyContentDedups(d: QuizDocument, category: string)
    requires d.questions.None? && d.imageBased.Some?
    ensures var r := LearningContent(d, category);
      forall i, j :: 0 <= i < j < |r| ==> r[i].question.image != r[j].question.image
    ensures Images(LearningContent(d, category)) == Images(Candidates(d.imageBased.value, category, "image-based"))
  {
    var s := Candidates(d.imageBased.value, category, "image-based");
    DedupDistinct(s);
    DedupCovers(s);
  }

  lemma LegacyContentKeepsFirst(d: QuizDocument, category: string, x: LearnItem, i: nat)
    requires d.questions.None? && d.imageBased.Some?
    requires var s := Candidates(d.imageBased.value, category, "image-based");
      x in LearningContent(d, category) && i < |s| && s[i].question.image == x.question.image
    ensures x in Candidates(d.imageBased.value, category, "image-based")[..i + 1]
  {
    DedupKeepsFirst(Candidates(d.imageBased.value, category, "image-based"), x, i);
  }

  /** `categoryData.forEach(item => { if (item.image) contentToShow.push(...) })`. */
  method PushItems(acc: seq<LearnItem>, qs: seq<Question>, category: string, source: string)
    returns (r: seq<LearnItem>)
    ensures r == acc + ItemsOf(qs, category, source)
  {
    r := acc;
    var j := 0;
    while j < |qs|
      invariant 0 <= j <= |qs|
      invariant r == acc + ItemsOf(qs[..j], category, source)
    {
      assert qs[..j + 1][..j] == qs[..j];
      if HasImage(qs[j]) {
        r := r + [LearnItem(qs[j], category, source)];
      }
      j := j + 1;
    }
    assert qs[..|qs|] == qs;
  }

  /** The same walk with the `seenImages` check of the legacy path. */
  method PushUnseen(acc: seq<LearnItem>, seen: set<Option<string>>, ghost pending: seq<LearnItem>,
                    qs: seq<Question>, category: string, source: string)
    returns (r: seq<LearnItem>, seen': set<Option<string>>)
    requires acc == DedupByImage(pending) && seen == Images(acc)
    ensures r == DedupByImage(pending + ItemsOf(qs, category, source))
    ensures seen' == Images(r)
  {
    r, seen' := acc, seen;
    var j := 0;
    assert pending + ItemsOf(qs[..0], category, source) == pending;
    while j < |qs|
      invariant 0 <= j <= |qs|
      invariant r == DedupByImage(pending + ItemsOf(qs[..j], category, source))
      invariant seen' == Images(r)
    {
      var q := qs[j];
      ItemsOfStep(pending, qs, j, category, source);
      if HasImage(q) {
        var item := LearnItem(q, category, source);
        DedupStep(pending + ItemsOf(qs[..j], category, source), item);
        ImagesAppend(r, item);
        if q.image !in seen' {
          seen' := seen' + {q.image};
          r := r + [item];
        }
      }
      j := j + 1;
    }
    assert qs[..|qs|] == qs;
  }

  lemma ItemsOfStep(pending: seq<LearnItem>, qs: seq<Question>, j: nat, category: string, source: string)
    requires j < |qs|
    ensures HasImage(qs[j]) ==>
      pending + ItemsOf(qs[..j + 1], category, source) ==
      (pending + ItemsOf(qs[..j], category, source)) + [LearnItem(qs[j], category, source)]
    ensures !HasImage(qs[j]) ==>
      pending + ItemsOf(qs[..j + 1], category, source) == pending + ItemsOf(qs[..j], category, source)
  {
    assert qs[..j + 1][..j] == qs[..j];
  }

  lemma DedupStep(before: seq<LearnItem>, item: LearnItem)
    ensures DedupByImage(before + [item]) ==
      if item.question.image in Images(DedupByImage(before)) then DedupByImage(before)
      else DedupByImage(before) + [item]
  {
    assert (before + [item])[..|before|] == before;
  }

  /** The unified walk over every category but "all". */
  method CollectAllUnified(c: Catalog) returns (content: seq<LearnItem>)
    ensures content == AllItems(c, |c.keys|, "unified")
  {
    content := [];
    var i := 0;
    while i < |c.keys|
      invariant 0 <= i <= |c.keys|
      invariant content == AllItems(c, i, "unified")
    {
      var cat := c.keys[i];
      if cat != "all" && cat in c.entries {
        content := PushItems(content, c.entries[cat], cat, "unified");
      }
      i := i + 1;
    }
  }

  /** The legacy walk over every image-based category but "all", one card per image. */
  method CollectAllLegacy(c: Catalog) returns (content: seq<LearnItem>)
    ensures content == DedupByImage(AllItems(c, |c.keys|, "image-based"))
  {
    content := [];
    var seen: set<Option<string>> := {};
    ghost var pending: seq<LearnItem> := [];
    var i := 0;
    while i < |c.keys|
      invariant 0 <= i <= |c.keys|
      invariant pending == AllItems(c, i, "image-based")
      invariant content == DedupByImage(pending) && seen == Images(content)
    {
      var cat := c.keys[i];
      if cat != "all" && cat in c.entries {
        content, seen := PushUnseen(content, seen, pending, c.entries[cat], cat, "image-based");
        pending := pending + ItemsOf(c.entries[cat], cat, "image-based");
      }
      i := i + 1;
    }
  }

  /** `renderLearningContent` up to its sort: the cards shown for a category. */
  method CollectLearningContent(d: QuizDocument, category: string) returns (content: seq<LearnItem>)
    ensures content == LearningContent(d, category)
  {
    content := [];
    if d.questions.Some? {
      var c := d.questions.value;
      if category == "all" {
        content := CollectAllUnified(c);
      } else if category in c.entries {
        content := PushItems(content, c.entries[category], category, "unified");
      }
    } else if d.imageBased.Some? {
      var c := d.imageBased.value;
      if category == "all" {
        content := CollectAllLegacy(c);
      } else if category in c.entries {
        var seen;
        content, seen := PushUnseen(content, {}, [], c.entries[category], category, "image-based");
        assert [] + ItemsOf(c.entries[category], category, "image-based") ==
          ItemsOf(c.entries[category], category, "image-based");
      }
    }
  }
}
