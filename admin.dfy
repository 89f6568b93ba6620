/**
 * The admin client: the checks behind the add-category and add-question
 * forms, the structure check applied to an imported JSON file, the one-off
 * migration of the legacy maps into the unified `questions` map, and the
 * counters of the statistics panel and of the delete dialog. The client's
 * copy of the quiz document and the statistics panel are the fields of one
 * object that the handlers update.
 */
module Admin {
  import opened QuizData
  import App

  const ImageBasedMode := "image-based"
  const TimeLimitedMode := "time-limited"

  // ----- category names -----

  /** The characters `[a-z0-9_]`. */
  predicate CategoryChar(c: char) {
    'a' <= c <= 'z' || '0' <= c <= '9' || c == '_'
  }

  /** Every character of `s` is a category character, checked one by one. */
  function AllCategoryChars(s: string): (ok: bool)
    ensures ok <==> forall i :: 0 <= i < |s| ==> CategoryChar(s[i])
  {
    if |s| == 0 then true
    else
      var rest := AllCategoryChars(s[1..]);
      assert forall i :: 1 <= i < |s| ==> s[i] == s[1..][i - 1];
      CategoryChar(s[0]) && rest
  }

  /** `isValidCategoryName`: the whole name matches `^[a-z0-9_]+$`. */
  function IsValidCategoryName(name: string): (ok: bool)
    ensures ok <==> |name| > 0 && forall i :: 0 <= i < |name| ==> CategoryChar(name[i])
  {
    |name| > 0 && AllCategoryChars(name)
  }

  /**
   * A valid name has no capital letters, so lower-casing it changes nothing
   * and it names the synthetic "all" category only when it is "all" itself.
   */
  lemma ValidNameIsLowerCase(name: string)
    requires IsValidCategoryName(name)
    ensures Lower(name) == name
    ensures IsAllCategory(name) <==> name == "all"
  {
    assert forall i :: 0 <= i < |name| ==> LowerChar(name[i]) == name[i];
  }

  /** A valid name has nothing for `trim()` to remove. */
  lemma ValidNameIsTrimmed(name: string)
    requires IsValidCategoryName(name)
    ensures App.Trim(name) == name
  {
    assert CategoryChar(name[0]) && CategoryChar(name[|name| - 1]);
    App.TrimFixes(name);
  }

  // ----- adding a category -----

  /** The outcome of the add-category form, one case per message. */
  datatype CategoryOutcome =
    | MissingName
    | InvalidName
    | NoModes
    | AlreadyExists(modes: seq<string>)
    | CategoryAdded(name: string, modes: seq<string>)

  /** The checked mode boxes, in the order of the form. */
  function SelectedModes(imageBased: bool, timeLimited: bool): (r: seq<string>)
    ensures |r| <= 2 && (r == [] <==> !imageBased && !timeLimited)
    ensures forall m :: m in r <==> (m == ImageBasedMode && imageBased) || (m == TimeLimitedMode && timeLimited)
  {
    (if imageBased then [ImageBasedMode] else []) + (if timeLimited then [TimeLimitedMode] else [])
  }

  /** `quizData[dataSource][name]` exists for the data source of `mode`. */
  predicate CategoryExists(d: QuizDocument, mode: string, name: string) {
    var src := TopLevel(d, DataSourceFor(mode));
    src.Some? && name in src.value.entries
  }

  /** The selected modes whose data source already has the category, in order. */
  function ExistingModes(d: QuizDocument, modes: seq<string>, name: string): (r: seq<string>)
    ensures forall m :: m in r <==> m in modes && CategoryExists(d, m, name)
  {
    if |modes| == 0 then []
    else
      var rest := ExistingModes(d, modes[..|modes| - 1], name);
      var m := modes[|modes| - 1];
      assert forall x :: x in modes <==> x in modes[..|modes| - 1] || x == m;
      if CategoryExists(d, m, name) then rest + [m] else rest
  }

  /** The catalog behind a top-level key, `{}` when the key is absent. */
  function CatalogOrEmpty(c: Option<Catalog>): Catalog {
    if c.Some? then c.value else EmptyCatalog()
  }

  /** `quizData[dataSource][name] = []`, creating `quizData[dataSource]` first when absent. */
  function PutEmpty(d: QuizDocument, dataSource: string, name: string): QuizDocument {
    if dataSource == ImageBasedMode then d.(imageBased := Some(CatalogOrEmpty(d.imageBased).Put(name, [])))
    else if dataSource == TimeLimitedMode then d.(timeLimited := Some(CatalogOrEmpty(d.timeLimited).Put(name, [])))
    else if dataSource == "questions" then d.(questions := Some(CatalogOrEmpty(d.questions).Put(name, [])))
    else d
  }

  /** The creation loop of handleAddCategory, one selected mode after the other. */
  function CreateCategory(d: QuizDocument, modes: seq<string>, name: string): QuizDocument {
    if |modes| == 0 then d
    else PutEmpty(CreateCategory(d, modes[..|modes| - 1], name), DataSourceFor(modes[|modes| - 1]), name)
  }

  /**
   * `handleAddCategory` on the client's copy of the document: trim the name,
   * reject an empty name, a name outside `[a-z0-9_]+` and an empty mode
   * selection, in that order; reject a name that already exists in the data
   * source of a selected mode; otherwise create an empty list under the name
   * in each selected mode's data source.
   */
  function AddCategory(d: QuizDocument, rawName: string, imageBased: bool, timeLimited: bool): (QuizDocument, CategoryOutcome) {
    var name := App.Trim(rawName);
    var modes := SelectedModes(imageBased, timeLimited);
    if name == "" then (d, MissingName)
    else if !IsValidCategoryName(name) then (d, InvalidName)
    else if |modes| == 0 then (d, NoModes)
    else
      var existing := ExistingModes(d, modes, name);
      if |existing| > 0 then (d, AlreadyExists(existing))
      else (CreateCategory(d, modes, name), CategoryAdded(name, modes))
  }

  /**
   * The checks come in the order of the handler, a conflict is a name the
   * image-based map already has (whatever modes are ticked), and an
   * accepted name gets an empty list in the image-based map only.
   */
  lemma AddCategoryOutcomes(d: QuizDocument, rawName: string, imageBased: bool, timeLimited: bool)
    ensures var r := AddCategory(d, rawName, imageBased, timeLimited);
      var name := App.Trim(rawName);
      var taken := d.imageBased.Some? && name in d.imageBased.value.entries;
      (r.1 == MissingName <==> name == "") &&
      (r.1 == InvalidName <==> name != "" && !IsValidCategoryName(name)) &&
      (r.1 == NoModes <==> IsValidCategoryName(name) && !imageBased && !timeLimited) &&
      (r.1.AlreadyExists? <==> IsValidCategoryName(name) && (imageBased || timeLimited) && taken) &&
      (r.1.AlreadyExists? ==> r.1.modes == SelectedModes(imageBased, timeLimited)) &&
      (r.1.CategoryAdded? <==> IsValidCategoryName(name) && (imageBased || timeLimited) && !taken) &&
      (r.1.CategoryAdded? ==>
        r.1.name == name && r.1.modes == SelectedModes(imageBased, timeLimited) &&
        r.0 == d.(imageBased := Some(CatalogOrEmpty(d.imageBased).Put(name, [])))) &&
      (!r.1.CategoryAdded? ==> r.0 == d)
  {
    var name := App.Trim(rawName);
    var modes := SelectedModes(imageBased, timeLimited);
    var r := AddCategory(d, rawName, imageBased, timeLimited);
    if name == "" {
      assert r == (d, MissingName);
    } else if !IsValidCategoryName(name) {
      assert r == (d, InvalidName);
    } else if |modes| == 0 {
      assert r == (d, NoModes);
    } else {
      assert forall i :: 0 <= i < |modes| ==> modes[i] in modes;
      ExistingModesOfImageBased(d, modes, name);
      CreateCategoryInImageBased(d, modes, name);
      if d.imageBased.Some? && name in d.imageBased.value.entries {
        assert r == (d, AlreadyExists(modes));
      } else {
        assert r == (CreateCategory(d, modes, name), CategoryAdded(name, modes));
      }
    }
  }

  /** Both modes read the image-based map, so either every selected mode conflicts or none does. */
  lemma {:induction false} ExistingModesOfImageBased(d: QuizDocument, modes: seq<string>, name: string)
    requires forall i :: 0 <= i < |modes| ==> modes[i] == ImageBasedMode || modes[i] == TimeLimitedMode
    ensures d.imageBased.Some? && name in d.imageBased.value.entries ==> ExistingModes(d, modes, name) == modes
    ensures !(d.imageBased.Some? && name in d.imageBased.value.entries) ==> ExistingModes(d, modes, name) == []
  {
    if |modes| > 0 {
      ExistingModesOfImageBased(d, modes[..|modes| - 1], name);
      assert modes[..|modes| - 1] + [modes[|modes| - 1]] == modes;
    }
  }

  /** Every selected mode writes to the image-based map; writing the same empty list twice is writing it once. */
  lemma {:induction false} CreateCategoryInImageBased(d: QuizDocument, modes: seq<string>, name: string)
    requires |modes| > 0
    requires forall i :: 0 <= i < |modes| ==> modes[i] == ImageBasedMode || modes[i] == TimeLimitedMode
    ensures CreateCategory(d, modes, name) == d.(imageBased := Some(CatalogOrEmpty(d.imageBased).Put(name, [])))
  {
    if |modes| > 1 {
      CreateCategoryInImageBased(d, modes[..|modes| - 1], name);
      PutTwice(CatalogOrEmpty(d.imageBased), name, [], []);
    }
  }

  /** A name that was added is in the image-based map, with no questions, and every other entry is kept. */
  lemma AddedCategoryIsEmpty(d: QuizDocument, rawName: string, imageBased: bool, timeLimited: bool)
    requires AddCategory(d, rawName, imageBased, timeLimited).1.CategoryAdded?
    ensures var r := AddCategory(d, rawName, imageBased, timeLimited);
      var name := r.1.name;
      var before := CatalogOrEmpty(d.imageBased);
      IsValidCategoryName(name) && name !in before.entries &&
      r.0.imageBased.Some? && r.0.imageBased.value.entries[name] == [] &&
      r.0.imageBased.value.keys == before.keys + [name] &&
      (forall k :: k in before.entries ==>
        k in r.0.imageBased.value.entries && r.0.imageBased.value.entries[k] == before.entries[k]) &&
      r.0.timeLimited == d.timeLimited && r.0.questions == d.questions
  {
    AddCategoryOutcomes(d, rawName, imageBased, timeLimited);
  }

  /** The conflict loop of handleAddCategory. */
  method FindExistingModes(d: QuizDocument, modes: seq<string>, name: string) returns (existing: seq<string>)
    ensures existing == ExistingModes(d, modes, name)
  {
    existing := [];
    for i := 0 to |modes|
      invariant existing == ExistingModes(d, modes[..i], name)
    {
      assert modes[..i + 1][..i] == modes[..i];
      if CategoryExists(d, modes[i], name) {
        existing := existing + [modes[i]];
      }
    }
    assert modes[..|modes|] == modes;
  }

  /** The creation loop of handleAddCategory. */
  method CreateInSources(d: QuizDocument, modes: seq<string>, name: string) returns (created: QuizDocument)
    ensures created == CreateCategory(d, modes, name)
  {
    created := d;
    for i := 0 to |modes|
      invariant created == CreateCategory(d, modes[..i], name)
    {
      assert modes[..i + 1][..i] == modes[..i];
      created := PutEmpty(created, DataSourceFor(modes[i]), name);
    }
    assert modes[..|modes|] == modes;
  }

  // ----- adding a question -----

  /**
   * The add-question form as the handler reads it. The two URL validity
   * flags are what `isValidUrl` answers for the trimmed texts.
   */
  datatype QuestionForm = QuestionForm(
    category: string,
    questionText: string,
    imageUrl: string,
    imageUrlValid: bool,
    hasImageFile: bool,
    optionInputs: seq<string>,
    correctAnswer: string,
    explanation: string,
    streetViewUrl: string,
    streetViewUrlValid: bool)

  /** The outcome of the add-question checks, one case per message. */
  datatype QuestionCheck =
    | NoCategory
    | AllCategoryChosen
    | NoImage
    | TooFewOptions
    | NoCorrectAnswer
    | AnswerNotAnOption
    | QuestionAccepted(q: Question)

  /** The option inputs, trimmed, without the empty ones, in order. */
  function OptionsOf(inputs: seq<string>): seq<string> {
    if |inputs| == 0 then []
    else
      var t := App.Trim(inputs[|inputs| - 1]);
      OptionsOf(inputs[..|inputs| - 1]) + (if t != "" then [t] else [])
  }

  /** Every option kept is a non-empty trimmed text, and every input that trims to something is kept. */
  lemma {:induction false} OptionsOfMeans(inputs: seq<string>)
    ensures |OptionsOf(inputs)| <= |inputs|
    ensures forall x :: x in OptionsOf(inputs) ==> x != "" && App.Trimmed(x)
    ensures forall i :: 0 <= i < |inputs| && App.Trim(inputs[i]) != "" ==> App.Trim(inputs[i]) in OptionsOf(inputs)
  {
    if |inputs| > 0 {
      var init := inputs[..|inputs| - 1];
      var t := App.Trim(inputs[|inputs| - 1]);
      var rest := OptionsOf(init);
      OptionsOfMeans(init);
      assert OptionsOf(inputs) == rest + (if t != "" then [t] else []);
      forall i | 0 <= i < |inputs| && App.Trim(inputs[i]) != ""
        ensures App.Trim(inputs[i]) in OptionsOf(inputs)
      {
        if i < |inputs| - 1 {
          assert inputs[i] == init[i];
          assert App.Trim(init[i]) in rest;
        }
      }
    }
  }

  /** A non-empty text as an optional question field. */
  function Field(text: string): (r: Option<string>)
    ensures r.Some? <==> text != ""
    ensures r.Some? ==> r.value == text
  {
    if text != "" then Some(text) else None
  }

  /**
   * The checks of `handleAddQuestion`, in the order the handler makes them,
   * and the question object it builds when they all pass. An uploaded file
   * stands in for the image only on the server, so the object carries the
   * URL alone.
   */
  function CheckQuestion(f: QuestionForm): (r: QuestionCheck)
    ensures r == NoCategory <==> f.category == ""
    ensures r == AllCategoryChosen <==> f.category != "" && IsAllCategory(f.category)
    ensures r == NoImage <==>
      f.category != "" && !IsAllCategory(f.category) &&
      !f.hasImageFile && (App.Trim(f.imageUrl) == "" || !f.imageUrlValid)
    ensures r == TooFewOptions <==>
      f.category != "" && !IsAllCategory(f.category) &&
      (f.hasImageFile || (App.Trim(f.imageUrl) != "" && f.imageUrlValid)) &&
      |OptionsOf(f.optionInputs)| < 2
    ensures r == NoCorrectAnswer <==>
      f.category != "" && !IsAllCategory(f.category) &&
      (f.hasImageFile || (App.Trim(f.imageUrl) != "" && f.imageUrlValid)) &&
      |OptionsOf(f.optionInputs)| >= 2 && f.correctAnswer == ""
    ensures r == AnswerNotAnOption <==>
      f.category != "" && !IsAllCategory(f.category) &&
      (f.hasImageFile || (App.Trim(f.imageUrl) != "" && f.imageUrlValid)) &&
      |OptionsOf(f.optionInputs)| >= 2 && f.correctAnswer != "" && f.correctAnswer !in OptionsOf(f.optionInputs)
    ensures r.QuestionAccepted? <==>
      f.category != "" && !IsAllCategory(f.category) &&
      (f.hasImageFile || (App.Trim(f.imageUrl) != "" && f.imageUrlValid)) &&
      |OptionsOf(f.optionInputs)| >= 2 && f.correctAnswer != "" && f.correctAnswer in OptionsOf(f.optionInputs)
    ensures r.QuestionAccepted? ==>
      r.q.options == OptionsOf(f.optionInputs) && r.q.correctAnswer == f.correctAnswer &&
      r.q.question == Field(App.Trim(f.questionText)) &&
      r.q.explanation == Field(App.Trim(f.explanation)) &&
      (r.q.image.Some? <==> App.Trim(f.imageUrl) != "" && f.imageUrlValid) &&
      (r.q.streetViewUrl.Some? <==> App.Trim(f.streetViewUrl) != "" && f.streetViewUrlValid)
  {
    var imageUrl := App.Trim(f.imageUrl);
    var options := OptionsOf(f.optionInputs);
    if f.category == "" then NoCategory
    else if IsAllCategory(f.category) then AllCategoryChosen
    else if !f.hasImageFile && (imageUrl == "" || !f.imageUrlValid) then NoImage
    else if |options| < 2 then TooFewOptions
    else if f.correctAnswer == "" then NoCorrectAnswer
    else if f.correctAnswer !in options then AnswerNotAnOption
    else
      var streetView := App.Trim(f.streetViewUrl);
      QuestionAccepted(Question(
        options, f.correctAnswer,
        if imageUrl != "" && f.imageUrlValid then Some(imageUrl) else None,
        Field(App.Trim(f.questionText)),
        Field(App.Trim(f.explanation)),
        if streetView != "" && f.streetViewUrlValid then Some(streetView) else None))
  }

  // ----- the structure check of an imported file -----

  /** A parsed JSON value; numbers are kept to the integers. */
  datatype Json =
    | JNull
    | JBool(b: bool)
    | JNum(n: int)
    | JStr(s: string)
    | JArr(items: seq<Json>)
    | JObj(keys: seq<string>, fields: map<string, Json>)

  /** `value.name`: an object's own field, undefined (None) for every other value. */
  function Prop(j: Json, name: string): Option<Json> {
    if j.JObj? && name in j.fields then Some(j.fields[name]) else None
  }

  /** JavaScript truthiness; undefined is None. */
  predicate Truthy(v: Option<Json>) {
    match v
    case None => false
    case Some(j) =>
      match j
      case JNull => false
      case JBool(b) => b
      case JNum(n) => n != 0
      case JStr(s) => s != ""
      case _ => true
  }

  /**
   * The equality `includes` uses: equal primitives; two arrays or objects
   * read from JSON are different references and never equal.
   */
  predicate SameValue(a: Json, b: Json) {
    (a.JNull? && b.JNull?) ||
    (a.JBool? && b.JBool? && a.b == b.b) ||
    (a.JNum? && b.JNum? && a.n == b.n) ||
    (a.JStr? && b.JStr? && a.s == b.s)
  }

  /** What the structure check makes of a value: accepted, rejected, or a TypeError. */
  datatype Verdict = Passes | Fails | Throws

  /**
   * One question of a category array: reading a field of null or undefined
   * throws; otherwise `options` must be an array of at least two entries and
   * `correctAnswer` a truthy value found among them.
   */
  function QuestionVerdict(q: Option<Json>): (v: Verdict)
    ensures v == Throws <==> q.None? || q.value.JNull?
    ensures v == Passes ==> q.value.JObj? && "options" in q.value.fields && "correctAnswer" in q.value.fields
    ensures v == Passes ==>
      var opts := q.value.fields["options"];
      var answer := q.value.fields["correctAnswer"];
      opts.JArr? && |opts.items| >= 2 && Truthy(Some(answer)) &&
      (answer.JStr? || answer.JNum? || answer.JBool?) &&
      exists i :: 0 <= i < |opts.items| && SameValue(opts.items[i], answer)
  {
    if q.None? || q.value.JNull? then Throws
    else
      var opts := Prop(q.value, "options");
      if !(opts.Some? && opts.value.JArr? && |opts.value.items| >= 2) then Fails
      else
        var answer := Prop(q.value, "correctAnswer");
        if !Truthy(answer) || !(exists i :: 0 <= i < |opts.value.items| && SameValue(opts.value.items[i], answer.value)) then Fails
        else Passes
  }

  /** The first non-passing verdict of the questions, in order; Passes when there is none. */
  function ListVerdict(qs: seq<Json>): Verdict {
    if |qs| == 0 then Passes
    else if QuestionVerdict(Some(qs[0])) != Passes then QuestionVerdict(Some(qs[0]))
    else ListVerdict(qs[1..])
  }

  /** A category's value must be an array, and then each question is checked. */
  function CategoryVerdict(v: Option<Json>): Verdict {
    if v.Some? && v.value.JArr? then ListVerdict(v.value.items) else Fails
  }

  /** The values `for ... in` visits: an object's fields in key order, an array's items. */
  function Members(j: Json): (r: seq<Option<Json>>)
    ensures j.JObj? ==> |r| == |j.keys| && forall i :: 0 <= i < |r| ==> r[i] == Prop(j, j.keys[i])
    ensures j.JArr? ==> |r| == |j.items| && forall i :: 0 <= i < |r| ==> r[i] == Some(j.items[i])
    ensures !j.JObj? && !j.JArr? ==> r == []
  {
    match j
    case JObj(keys, _) => seq(|keys|, i requires 0 <= i < |keys| => Prop(j, keys[i]))
    case JArr(items) => seq(|items|, i requires 0 <= i < |items| => Some(items[i]))
    case _ => []
  }

  /** The first non-passing category of a mode, in order. */
  function CategoriesVerdict(vs: seq<Option<Json>>): Verdict {
    if |vs| == 0 then Passes
    else if CategoryVerdict(vs[0]) != Passes then CategoryVerdict(vs[0])
    else CategoriesVerdict(vs[1..])
  }

  /** A mode's value must be a non-null object (an array is one too). */
  function ModeVerdict(v: Option<Json>): Verdict {
    if v.Some? && (v.value.JObj? || v.value.JArr?) then CategoriesVerdict(Members(v.value)) else Fails
  }

  predicate IsLegacyMode(key: string) {
    key == ImageBasedMode || key == TimeLimitedMode
  }

  /** The top-level keys in order: the two legacy modes are checked, every other key is skipped. */
  function ModesVerdict(data: Json, keys: seq<string>): Verdict {
    if |keys| == 0 then Passes
    else if IsLegacyMode(keys[0]) && ModeVerdict(Prop(data, keys[0])) != Passes then ModeVerdict(Prop(data, keys[0]))
    else ModesVerdict(data, keys[1..])
  }

  /**
   * `isValidQuizDataStructure`: anything but an object is refused; an array
   * has only index keys and passes; an object is checked mode by mode.
   */
  function StructureVerdict(data: Json): Verdict {
    match data
    case JObj(keys, _) => ModesVerdict(data, keys)
    case JArr(_) => Passes
    case _ => Fails
  }

  /** A category array passes exactly when each of its questions does. */
  lemma {:induction false} ListVerdictPasses(qs: seq<Json>)
    ensures ListVerdict(qs) == Passes <==> forall i :: 0 <= i < |qs| ==> QuestionVerdict(Some(qs[i])) == Passes
  {
    if |qs| > 0 {
      ListVerdictPasses(qs[1..]);
      assert forall i :: 1 <= i < |qs| ==> qs[i] == qs[1..][i - 1];
    }
  }

  /** A mode passes exactly when each of its values is an array whose questions all pass. */
  lemma {:induction false} CategoriesVerdictPasses(vs: seq<Option<Json>>)
    ensures CategoriesVerdict(vs) == Passes <==>
      forall i :: 0 <= i < |vs| ==> vs[i].Some? && vs[i].value.JArr? && ListVerdict(vs[i].value.items) == Passes
  {
    if |vs| > 0 {
      CategoriesVerdictPasses(vs[1..]);
      assert forall i :: 1 <= i < |vs| ==> vs[i] == vs[1..][i - 1];
    }
  }

  /** An object passes exactly when the value of each legacy-mode key in it passes. */
  lemma {:induction false} ModesVerdictPasses(data: Json, keys: seq<string>)
    ensures ModesVerdict(data, keys) == Passes <==>
      forall i :: 0 <= i < |keys| && IsLegacyMode(keys[i]) ==> ModeVerdict(Prop(data, keys[i])) == Passes
  {
    if |keys| > 0 {
      ModesVerdictPasses(data, keys[1..]);
      assert forall i :: 1 <= i < |keys| ==> keys[i] == keys[1..][i - 1];
    }
  }

  /** Only the values of the legacy-mode keys matter: two objects that agree on them get the same verdict. */
  lemma {:induction false} ModesVerdictReadsModesOnly(a: Json, b: Json, keys: seq<string>)
    requires Prop(a, ImageBasedMode) == Prop(b, ImageBasedMode) && Prop(a, TimeLimitedMode) == Prop(b, TimeLimitedMode)
    ensures ModesVerdict(a, keys) == ModesVerdict(b, keys)
  {
    if |keys| > 0 {
      ModesVerdictReadsModesOnly(a, b, keys[1..]);
    }
  }

  /** A key that is not a legacy mode at the end of the key list is skipped. */
  lemma {:induction false} ModesVerdictSkipsLast(data: Json, keys: seq<string>, k: string)
    requires !IsLegacyMode(k)
    ensures ModesVerdict(data, keys + [k]) == ModesVerdict(data, keys)
  {
    if |keys| == 0 {
      assert ModesVerdict(data, [k]) == ModesVerdict(data, []);
    } else {
      assert (keys + [k])[1..] == keys[1..] + [k];
      ModesVerdictSkipsLast(data, keys[1..], k);
    }
  }

  /**
   * Adding any key other than the two legacy modes to an imported object,
   * the unified `questions` map included, never changes the verdict.
   */
  lemma OtherKeysIgnored(keys: seq<string>, fields: map<string, Json>, k: string, value: Json)
    requires !IsLegacyMode(k)
    ensures StructureVerdict(JObj(keys + [k], fields[k := value])) == StructureVerdict(JObj(keys, fields))
  {
    var a := JObj(keys + [k], fields[k := value]);
    var b := JObj(keys, fields);
    ModesVerdictSkipsLast(a, keys, k);
    ModesVerdictReadsModesOnly(a, b, keys);
  }

  /** The JSON a question object is stored as. */
  function QuestionJson(q: Question): (j: Json)
    ensures j.JObj? && Prop(j, "options") == Some(JArr(seq(|q.options|, i requires 0 <= i < |q.options| => JStr(q.options[i]))))
    ensures Prop(j, "correctAnswer") == Some(JStr(q.correctAnswer))
  {
    var base := map["options" := JArr(seq(|q.options|, i requires 0 <= i < |q.options| => JStr(q.options[i]))),
                    "correctAnswer" := JStr(q.correctAnswer)];
    var withText := if q.question.Some? then base["question" := JStr(q.question.value)] else base;
    var withExplanation := if q.explanation.Some? then withText["explanation" := JStr(q.explanation.value)] else withText;
    var withUrl := if q.streetViewUrl.Some? then withExplanation["streetViewUrl" := JStr(q.streetViewUrl.value)] else withExplanation;
    var fields := if q.image.Some? then withUrl["image" := JStr(q.image.value)] else withUrl;
    JObj(["options", "correctAnswer"] +
         (if q.question.Some? then ["question"] else []) +
         (if q.explanation.Some? then ["explanation"] else []) +
         (if q.streetViewUrl.Some? then ["streetViewUrl"] else []) +
         (if q.image.Some? then ["image"] else []), fields)
  }

  /** A question with two options or more and a non-empty correct answer among them passes the import check. */
  lemma QuestionJsonPasses(q: Question)
    requires |q.options| >= 2 && q.correctAnswer != "" && q.correctAnswer in q.options
    ensures QuestionVerdict(Some(QuestionJson(q))) == Passes
  {
    var items := Prop(QuestionJson(q), "options").value.items;
    var i :| 0 <= i < |q.options| && q.options[i] == q.correctAnswer;
    assert SameValue(items[i], JStr(q.correctAnswer));
  }

  /** A question the add-question form accepts would pass the import check once saved. */
  lemma AcceptedQuestionPassesImport(f: QuestionForm)
    requires CheckQuestion(f).QuestionAccepted?
    ensures QuestionVerdict(Some(QuestionJson(CheckQuestion(f).q))) == Passes
  {
    QuestionJsonPasses(CheckQuestion(f).q);
  }

  /** The question loop of isValidQuizDataStructure, with its early returns. */
  method CheckQuestions(qs: seq<Json>) returns (v: Verdict)
    ensures v == ListVerdict(qs)
  {
    var i := 0;
    while i < |qs|
      invariant 0 <= i <= |qs|
      invariant ListVerdict(qs[i..]) == ListVerdict(qs)
    {
      assert qs[i..][1..] == qs[i + 1..];
      var q := qs[i];
      if q.JNull? {
        return Throws;
      }
      var opts := Prop(q, "options");
      if !(opts.Some? && opts.value.JArr? && |opts.value.items| >= 2) {
        return Fails;
      }
      var answer := Prop(q, "correctAnswer");
      if !Truthy(answer) {
        return Fails;
      }
      var found := Includes(opts.value.items, answer.value);
      if !found {
        return Fails;
      }
      i := i + 1;
    }
    assert qs[i..] == [];
    v := Passes;
  }

  /** `items.includes(x)`. */
  method Includes(items: seq<Json>, x: Json) returns (found: bool)
    ensures found <==> exists i :: 0 <= i < |items| && SameValue(items[i], x)
  {
    found := false;
    var i := 0;
    while i < |items| && !found
      invariant 0 <= i <= |items|
      invariant found <==> exists k :: 0 <= k < i && SameValue(items[k], x)
    {
      found := SameValue(items[i], x);
      i := i + 1;
    }
  }

  /** The category loop of isValidQuizDataStructure. */
  method CheckCategories(vs: seq<Option<Json>>) returns (v: Verdict)
    ensures v == CategoriesVerdict(vs)
  {
    var i := 0;
    while i < |vs|
      invariant 0 <= i <= |vs|
      invariant CategoriesVerdict(vs[i..]) == CategoriesVerdict(vs)
    {
      assert vs[i..][1..] == vs[i + 1..];
      if !(vs[i].Some? && vs[i].value.JArr?) {
        return Fails;
      }
      v := CheckQuestions(vs[i].value.items);
      if v != Passes {
        return;
      }
      i := i + 1;
    }
    assert vs[i..] == [];
    v := Passes;
  }

  /** `isValidQuizDataStructure(data)`, with a TypeError as its own verdict. */
  method IsValidQuizDataStructure(data: Json) returns (v: Verdict)
    ensures v == StructureVerdict(data)
  {
    if data.JArr? {
      return Passes;
    }
    if !data.JObj? {
      return Fails;
    }
    var keys := data.keys;
    var i := 0;
    while i < |keys|
      invariant 0 <= i <= |keys|
      invariant ModesVerdict(data, keys[i..]) == ModesVerdict(data, keys)
    {
      assert keys[i..][1..] == keys[i + 1..];
      if IsLegacyMode(keys[i]) {
        var value := Prop(data, keys[i]);
        if !(value.Some? && (value.value.JObj? || value.value.JArr?)) {
          return Fails;
        }
        v := CheckCategories(Members(value.value));
        if v != Passes {
          return;
        }
      }
      i := i + 1;
    }
    assert keys[i..] == [];
    v := Passes;
  }

  // ----- migration to the unified map -----

  /** `obj[k] || []` for a category map. */
  function Lookup(c: Catalog, k: string): seq<Question> {
    if k in c.entries then c.entries[k] else []
  }

  /**
   * The duplicate key of the migration: the image (or "no-image"), the
   * correct answer and the category, joined by underscores.
   */
  function MigrationKey(q: Question, category: string): string {
    OrElse(q.image, "no-image") + "_" + q.correctAnswer + "_" + category
  }

  /** Underscores in answers and category names let two different questions share a key. */
  lemma MigrationKeyCollides()
    ensures var a := Question(["x"], "b_c", Some("img"), None, None, None);
            var b := Question(["x"], "b", Some("img"), None, None, None);
            MigrationKey(a, "d") == MigrationKey(b, "c_d") && a.correctAnswer != b.correctAnswer
  {
  }

  /** The loop state of migrateToUnifiedStructure. */
  datatype Migration = Migration(unified: Catalog, seen: set<string>, migrated: nat, duplicates: nat)

  /** One question: a new key is appended to the unified list of its category, a seen key is counted as a duplicate. */
  function MigrateOne(m: Migration, category: string, q: Question): Migration {
    var key := MigrationKey(q, category);
    if key in m.seen then m.(duplicates := m.duplicates + 1)
    else m.(unified := m.unified.Put(category, Lookup(m.unified, category) + [q]),
            seen := m.seen + {key}, migrated := m.migrated + 1)
  }

  /** The questions of one category, in order. */
  function MigrateList(m: Migration, category: string, qs: seq<Question>): Migration {
    if |qs| == 0 then m else MigrateOne(MigrateList(m, category, qs[..|qs| - 1]), category, qs[|qs| - 1])
  }

  /** The categories of one legacy map in key order, skipping "all". */
  function MigrateCatalog(m: Migration, c: Catalog, keys: seq<string>): Migration {
    if |keys| == 0 then m
    else
      var prev := MigrateCatalog(m, c, keys[..|keys| - 1]);
      var k := keys[|keys| - 1];
      if k != "all" then MigrateList(prev, k, Lookup(c, k)) else prev
  }

  function MigrateSource(m: Migration, c: Option<Catalog>): Migration {
    if c.Some? then MigrateCatalog(m, c.value, c.value.keys) else m
  }

  /** `migrateToUnifiedStructure`: image-based first, then time-limited, into the existing (or a new) unified map. */
  function Migrate(d: QuizDocument): Migration {
    MigrateSource(MigrateSource(Migration(CatalogOrEmpty(d.questions), {}, 0, 0), d.imageBased), d.timeLimited)
  }

  function MigratedDocument(d: QuizDocument): QuizDocument {
    d.(questions := Some(Migrate(d).unified))
  }

  /** The keys of a category's questions. */
  function KeysOf(category: string, qs: seq<Question>): set<string> {
    if |qs| == 0 then {} else KeysOf(category, qs[..|qs| - 1]) + {MigrationKey(qs[|qs| - 1], category)}
  }

  /** How many questions the migration looks at in one legacy map: every list but "all". */
  function ScannedCount(c: Catalog, keys: seq<string>): nat {
    if |keys| == 0 then 0
    else ScannedCount(c, keys[..|keys| - 1]) + (if keys[|keys| - 1] != "all" then |Lookup(c, keys[|keys| - 1])| else 0)
  }

  /** The keys of the questions it looks at. */
  function ScannedKeys(c: Catalog, keys: seq<string>): set<string> {
    if |keys| == 0 then {}
    else ScannedKeys(c, keys[..|keys| - 1]) + (if keys[|keys| - 1] != "all" then KeysOf(keys[|keys| - 1], Lookup(c, keys[|keys| - 1])) else {})
  }

  function SourceCount(c: Option<Catalog>): nat {
    if c.Some? then ScannedCount(c.value, c.value.keys) else 0
  }

  function SourceKeys(c: Option<Catalog>): set<string> {
    if c.Some? then ScannedKeys(c.value, c.value.keys) else {}
  }

  /** Each question is either migrated or counted as a duplicate, and each migration adds one key to the seen set. */
  ghost predicate Accounts(m: Migration, r: Migration, n: nat, keys: set<string>) {
    r.migrated + r.duplicates == m.migrated + m.duplicates + n &&
    r.seen == m.seen + keys &&
    r.migrated + |m.seen| == m.migrated + |r.seen|
  }

  /** The unified map only grows: keys keep their order and every list keeps its prefix. */
  ghost predicate Extends(a: Catalog, b: Catalog) {
    |a.keys| <= |b.keys| && b.keys[..|a.keys|] == a.keys &&
    (a.Valid() ==> b.Valid()) &&
    forall k :: k in a.entries ==> k in b.entries && a.entries[k] <= b.entries[k]
  }

  lemma ExtendsTransitive(a: Catalog, b: Catalog, c: Catalog)
    requires Extends(a, b) && Extends(b, c)
    ensures Extends(a, c)
  {
    assert c.keys[..|a.keys|] == c.keys[..|b.keys|][..|a.keys|];
  }

  lemma {:induction false} MigrateListAccounts(m: Migration, category: string, qs: seq<Question>)
    ensures Accounts(m, MigrateList(m, category, qs), |qs|, KeysOf(category, qs))
  {
    if |qs| > 0 {
      var init := qs[..|qs| - 1];
      MigrateListAccounts(m, category, init);
      var prev := MigrateList(m, category, init);
      var key := MigrationKey(qs[|qs| - 1], category);
      if key !in prev.seen {
        assert |prev.seen + {key}| == |prev.seen| + 1;
      }
    }
  }

  lemma {:induction false} MigrateListExtends(m: Migration, category: string, qs: seq<Question>)
    ensures var r := MigrateList(m, category, qs);
      Extends(m.unified, r.unified) &&
      (forall k :: k != category ==> Lookup(r.unified, k) == Lookup(m.unified, k)) &&
      (forall k :: k in r.unified.keys ==> k in m.unified.keys || k == category) &&
      (m.unified.Valid() && r.migrated > m.migrated ==> category in r.unified.keys)
  {
    if |qs| > 0 {
      var prev := MigrateList(m, category, qs[..|qs| - 1]);
      MigrateListExtends(m, category, qs[..|qs| - 1]);
      var r := MigrateOne(prev, category, qs[|qs| - 1]);
      assert Extends(prev.unified, r.unified);
      ExtendsTransitive(m.unified, prev.unified, r.unified);
    }
  }

  lemma {:induction false} MigrateCatalogAccounts(m: Migration, c: Catalog, keys: seq<string>)
    ensures Accounts(m, MigrateCatalog(m, c, keys), ScannedCount(c, keys), ScannedKeys(c, keys))
  {
    if |keys| > 0 {
      var k := keys[|keys| - 1];
      MigrateCatalogAccounts(m, c, keys[..|keys| - 1]);
      if k != "all" {
        MigrateListAccounts(MigrateCatalog(m, c, keys[..|keys| - 1]), k, Lookup(c, k));
      }
    }
  }

  lemma {:induction false} MigrateCatalogExtends(m: Migration, c: Catalog, keys: seq<string>)
    ensures var r := MigrateCatalog(m, c, keys);
      Extends(m.unified, r.unified) &&
      Lookup(r.unified, "all") == Lookup(m.unified, "all") &&
      (forall k :: k in r.unified.keys ==> k in m.unified.keys || (k in keys && k != "all")) &&
      (m.unified.Valid() && r.migrated > m.migrated ==> r.unified.keys != [])
  {
    if |keys| > 0 {
      var k := keys[|keys| - 1];
      var prev := MigrateCatalog(m, c, keys[..|keys| - 1]);
      MigrateCatalogExtends(m, c, keys[..|keys| - 1]);
      MigrateListAccounts(prev, k, Lookup(c, k));
      if k != "all" {
        MigrateListExtends(prev, k, Lookup(c, k));
        ExtendsTransitive(m.unified, prev.unified, MigrateList(prev, k, Lookup(c, k)).unified);
      }
    }
  }

  /** A key is among a list's keys when some question of the list has it. */
  lemma {:induction false} KeysOfMember(category: string, qs: seq<Question>, i: nat)
    requires i < |qs|
    ensures MigrationKey(qs[i], category) in KeysOf(category, qs)
  {
    if i < |qs| - 1 {
      KeysOfMember(category, qs[..|qs| - 1], i);
    }
  }

  /** Only keys of the list's questions are in its key set. */
  lemma {:induction false} KeysOfOnly(category: string, qs: seq<Question>, key: string)
    requires forall j :: 0 <= j < |qs| ==> MigrationKey(qs[j], category) != key
    ensures key !in KeysOf(category, qs)
  {
    if |qs| > 0 {
      KeysOfOnly(category, qs[..|qs| - 1], key);
    }
  }

  /** The questions appended to `category`: none with a key seen before, no two with the same key. */
  ghost predicate FreshAndDistinct(seen: set<string>, category: string, added: seq<Question>) {
    (forall i :: 0 <= i < |added| ==> MigrationKey(added[i], category) !in seen) &&
    (forall i, j :: 0 <= i < j < |added| ==> MigrationKey(added[i], category) != MigrationKey(added[j], category))
  }

  /** The migration of a list appends to its category only questions of the list, at most one per key. */
  lemma {:induction false} MigrateListAppends(m: Migration, category: string, qs: seq<Question>)
    ensures var r := MigrateList(m, category, qs);
      var before := Lookup(m.unified, category);
      var after := Lookup(r.unified, category);
      |before| <= |after| && after[..|before|] == before &&
      FreshAndDistinct(m.seen, category, after[|before|..]) &&
      (forall x :: x in after[|before|..] ==> x in qs && MigrationKey(x, category) in r.seen)
  {
    if |qs| > 0 {
      var init := qs[..|qs| - 1];
      var q := qs[|qs| - 1];
      MigrateListAppends(m, category, init);
      MigrateListAccounts(m, category, init);
      var prev := MigrateList(m, category, init);
      var before := Lookup(m.unified, category);
      var mid := Lookup(prev.unified, category);
      if MigrationKey(q, category) !in prev.seen {
        var after := mid + [q];
        assert Lookup(MigrateList(m, category, qs).unified, category) == after;
        assert after[|before|..] == mid[|before|..] + [q];
        assert after[..|before|] == mid[..|before|];
      }
    }
  }

  /**
   * The first question of the list with a key not seen before is migrated:
   * it ends up in the unified list of its category.
   */
  lemma {:induction false} MigrateKeepsFirst(m: Migration, category: string, qs: seq<Question>, i: nat)
    requires i < |qs| && MigrationKey(qs[i], category) !in m.seen
    requires forall j :: 0 <= j < i ==> MigrationKey(qs[j], category) != MigrationKey(qs[i], category)
    ensures qs[i] in Lookup(MigrateList(m, category, qs).unified, category)
  {
    var init := qs[..|qs| - 1];
    MigrateListExtends(MigrateList(m, category, init), category, [qs[|qs| - 1]]);
    if i == |qs| - 1 {
      MigrateListAccounts(m, category, init);
      KeysOfOnly(category, init, MigrationKey(qs[i], category));
    } else {
      MigrateKeepsFirst(m, category, init, i);
      assert [qs[|qs| - 1]][..0] == [];
    }
  }

  /** Some question in the lists means some key. */
  lemma {:induction false} ScannedKeysNonEmpty(c: Catalog, keys: seq<string>)
    requires ScannedCount(c, keys) > 0
    ensures ScannedKeys(c, keys) != {}
  {
    var k := keys[|keys| - 1];
    if k != "all" && |Lookup(c, k)| > 0 {
      var qs := Lookup(c, k);
      assert MigrationKey(qs[|qs| - 1], k) in KeysOf(k, qs);
    } else {
      ScannedKeysNonEmpty(c, keys[..|keys| - 1]);
    }
  }

  /**
   * Every question outside "all" in the two legacy maps is either migrated
   * or counted as a duplicate, and exactly one question per distinct key is
   * migrated.
   */
  lemma MigrationCounts(d: QuizDocument)
    ensures var r := Migrate(d);
      r.migrated + r.duplicates == SourceCount(d.imageBased) + SourceCount(d.timeLimited) &&
      r.seen == SourceKeys(d.imageBased) + SourceKeys(d.timeLimited) &&
      r.migrated == |r.seen|
  {
    var m0 := Migration(CatalogOrEmpty(d.questions), {}, 0, 0);
    var m1 := MigrateSource(m0, d.imageBased);
    if d.imageBased.Some? {
      MigrateCatalogAccounts(m0, d.imageBased.value, d.imageBased.value.keys);
    }
    if d.timeLimited.Some? {
      MigrateCatalogAccounts(m1, d.timeLimited.value, d.timeLimited.value.keys);
    }
  }

  /**
   * The unified map keeps what it had (order, lists, and the "all" list
   * untouched) and only gains categories that some legacy map has.
   */
  lemma MigrationExtends(d: QuizDocument)
    ensures var before := CatalogOrEmpty(d.questions);
      var after := Migrate(d).unified;
      Extends(before, after) && Lookup(after, "all") == Lookup(before, "all") &&
      forall k :: k in after.keys ==>
        (k in before.keys || (d.imageBased.Some? && k in d.imageBased.value.keys) ||
         (d.timeLimited.Some? && k in d.timeLimited.value.keys))
  {
    var m0 := Migration(CatalogOrEmpty(d.questions), {}, 0, 0);
    var m1 := MigrateSource(m0, d.imageBased);
    if d.imageBased.Some? {
      MigrateCatalogExtends(m0, d.imageBased.value, d.imageBased.value.keys);
    }
    if d.timeLimited.Some? {
      MigrateCatalogExtends(m1, d.timeLimited.value, d.timeLimited.value.keys);
      ExtendsTransitive(m0.unified, m1.unified, Migrate(d).unified);
    }
  }

  /** `isMigrationNeeded`: the unified map is absent or empty while a legacy map has a category. */
  predicate IsMigrationNeeded(d: QuizDocument) {
    (d.questions.None? || |d.questions.value.keys| == 0) &&
    ((d.imageBased.Some? && |d.imageBased.value.keys| > 0) || (d.timeLimited.Some? && |d.timeLimited.value.keys| > 0))
  }

  /**
   * After a migration that found at least one question the unified map has
   * a category, so no second migration is asked for; when every legacy list
   * is empty or "all" the unified map stays as it was.
   */
  lemma MigrationSettles(d: QuizDocument)
    requires d.questions.Some? ==> d.questions.value.Valid()
    ensures SourceCount(d.imageBased) + SourceCount(d.timeLimited) > 0 ==> !IsMigrationNeeded(MigratedDocument(d))
    ensures SourceCount(d.imageBased) + SourceCount(d.timeLimited) == 0 ==> Migrate(d).unified == CatalogOrEmpty(d.questions)
  {
    var m0 := Migration(CatalogOrEmpty(d.questions), {}, 0, 0);
    var m1 := MigrateSource(m0, d.imageBased);
    var r := Migrate(d);
    MigrationCounts(d);
    if d.imageBased.Some? {
      MigrateCatalogExtends(m0, d.imageBased.value, d.imageBased.value.keys);
      MigrateCatalogAccounts(m0, d.imageBased.value, d.imageBased.value.keys);
    }
    if d.timeLimited.Some? {
      MigrateCatalogExtends(m1, d.timeLimited.value, d.timeLimited.value.keys);
      MigrateCatalogAccounts(m1, d.timeLimited.value, d.timeLimited.value.keys);
    }
    if SourceCount(d.imageBased) > 0 {
      ScannedKeysNonEmpty(d.imageBased.value, d.imageBased.value.keys);
    } else if SourceCount(d.timeLimited) > 0 {
      ScannedKeysNonEmpty(d.timeLimited.value, d.timeLimited.value.keys);
    }
    if SourceCount(d.imageBased) + SourceCount(d.timeLimited) > 0 {
      assert r.migrated > 0;
      if m1.migrated == 0 {
        assert r.unified.keys != [];
      } else {
        assert m1.unified.keys != [];
        assert r.unified.keys[..|m1.unified.keys|] == m1.unified.keys;
      }
    } else {
      MigrateUnchanged(m0, d.imageBased);
      MigrateUnchanged(m1, d.timeLimited);
    }
  }

  /** Nothing scanned, nothing migrated: the unified map is the same. */
  lemma MigrateUnchanged(m: Migration, c: Option<Catalog>)
    requires SourceCount(c) == 0
    ensures MigrateSource(m, c).unified == m.unified
  {
    if c.Some? {
      MigrateCatalogUnchanged(m, c.value, c.value.keys);
    }
  }

  lemma {:induction false} MigrateCatalogUnchanged(m: Migration, c: Catalog, keys: seq<string>)
    requires ScannedCount(c, keys) == 0
    ensures MigrateCatalog(m, c, keys).unified == m.unified
  {
    if |keys| > 0 {
      MigrateCatalogUnchanged(m, c, keys[..|keys| - 1]);
      var k := keys[|keys| - 1];
      if k != "all" {
        assert Lookup(c, k) == [];
      }
    }
  }

  /** The question loop of the migration. */
  method MigrateQuestions(m: Migration, category: string, qs: seq<Question>) returns (r: Migration)
    ensures r == MigrateList(m, category, qs)
  {
    r := m;
    for i := 0 to |qs|
      invariant r == MigrateList(m, category, qs[..i])
    {
      assert qs[..i + 1][..i] == qs[..i];
      var key := MigrationKey(qs[i], category);
      if key !in r.seen {
        var list := Lookup(r.unified, category);
        r := r.(unified := r.unified.Put(category, list + [qs[i]]), seen := r.seen + {key}, migrated := r.migrated + 1);
      } else {
        r := r.(duplicates := r.duplicates + 1);
      }
    }
    assert qs[..|qs|] == qs;
  }

  /** The category loop of the migration over one legacy map. */
  method MigrateCategories(m: Migration, c: Catalog) returns (r: Migration)
    ensures r == MigrateCatalog(m, c, c.keys)
  {
    r := m;
    var keys := c.keys;
    for i := 0 to |keys|
      invariant r == MigrateCatalog(m, c, keys[..i])
    {
      assert keys[..i + 1][..i] == keys[..i];
      if keys[i] != "all" {
        r := MigrateQuestions(r, keys[i], Lookup(c, keys[i]));
      }
    }
    assert keys[..|keys|] == keys;
  }

  // ----- statistics -----

  /** The category names of one top-level map. */
  function KeySet(c: Option<Catalog>): set<string> {
    if c.Some? then set k | k in c.value.keys else {}
  }

  /** `uniqueCategories`: the distinct category names over all top-level maps. */
  function CategoryNames(d: QuizDocument): set<string> {
    KeySet(d.questions) + KeySet(d.imageBased) + KeySet(d.timeLimited)
  }

  /** The lengths of the lists under `keys`, added up. */
  function SumLengths(c: Catalog, keys: seq<string>): nat {
    if |keys| == 0 then 0 else SumLengths(c, keys[..|keys| - 1]) + |Lookup(c, keys[|keys| - 1])|
  }

  function CatalogTotal(c: Option<Catalog>): nat {
    if c.Some? then SumLengths(c.value, c.value.keys) else 0
  }

  /** `totalQuestions`: every list of every top-level map, copies counted once per map. */
  function QuestionCount(d: QuizDocument): nat {
    CatalogTotal(d.questions) + CatalogTotal(d.imageBased) + CatalogTotal(d.timeLimited)
  }

  /** Two maps whose lists under `keys` have the same lengths add up the same. */
  lemma {:induction false} SumLengthsAgree(a: Catalog, b: Catalog, keys: seq<string>)
    requires forall k :: k in keys ==> |Lookup(a, k)| == |Lookup(b, k)|
    ensures SumLengths(a, keys) == SumLengths(b, keys)
  {
    if |keys| > 0 {
      assert keys[|keys| - 1] in keys;
      assert forall k :: k in keys[..|keys| - 1] ==> k in keys;
      SumLengthsAgree(a, b, keys[..|keys| - 1]);
    }
  }

  /** A name the add-category form accepts is one more category name and adds no question. */
  lemma AddCategoryStats(d: QuizDocument, rawName: string, imageBased: bool, timeLimited: bool)
    requires AddCategory(d, rawName, imageBased, timeLimited).1.CategoryAdded?
    ensures var r := AddCategory(d, rawName, imageBased, timeLimited);
      CategoryNames(r.0) == CategoryNames(d) + {r.1.name} && QuestionCount(r.0) == QuestionCount(d)
  {
    AddCategoryOutcomes(d, rawName, imageBased, timeLimited);
    PutEmptyStats(d, App.Trim(rawName));
  }

  /** A new empty image-based category adds its name and no question. */
  lemma PutEmptyStats(d: QuizDocument, name: string)
    requires name !in CatalogOrEmpty(d.imageBased).entries
    ensures var e := d.(imageBased := Some(CatalogOrEmpty(d.imageBased).Put(name, [])));
      CategoryNames(e) == CategoryNames(d) + {name} && QuestionCount(e) == QuestionCount(d)
  {
    var before := CatalogOrEmpty(d.imageBased);
    var after := before.Put(name, []);
    assert after.keys == before.keys + [name];
    assert KeySet(Some(after)) == KeySet(d.imageBased) + {name};
    SumLengthsAgree(before, after, before.keys);
    assert after.keys[..|after.keys| - 1] == before.keys;
    assert CatalogTotal(Some(after)) == CatalogTotal(d.imageBased);
  }

  /** Migration moves questions, never category names: the panel shows as many categories as before. */
  lemma MigrationKeepsCategoryNames(d: QuizDocument)
    ensures CategoryNames(MigratedDocument(d)) == CategoryNames(d)
  {
    MigrationExtends(d);
    var before := CatalogOrEmpty(d.questions);
    var after := Migrate(d).unified;
    assert forall k :: k in before.keys ==> k in after.keys by {
      assert after.keys[..|before.keys|] == before.keys;
    }
  }

  /** The counting loop over one top-level map. */
  method CountCatalog(c: Catalog) returns (names: set<string>, total: nat)
    ensures names == KeySet(Some(c)) && total == SumLengths(c, c.keys)
  {
    names, total := {}, 0;
    var keys := c.keys;
    for i := 0 to |keys|
      invariant names == set k | k in keys[..i]
      invariant total == SumLengths(c, keys[..i])
    {
      assert keys[..i + 1][..i] == keys[..i];
      names := names + {keys[i]};
      total := total + |Lookup(c, keys[i])|;
    }
    assert keys[..|keys|] == keys;
  }

  /** The two counting loops of updateAdminStats over the top-level maps. */
  method CountDocument(d: QuizDocument) returns (names: set<string>, total: nat)
    ensures names == CategoryNames(d) && total == QuestionCount(d)
  {
    names, total := {}, 0;
    var maps := [d.questions, d.imageBased, d.timeLimited];
    for i := 0 to 3
      invariant names == if i == 0 then {} else if i == 1 then KeySet(maps[0]) else if i == 2 then KeySet(maps[0]) + KeySet(maps[1]) else KeySet(maps[0]) + KeySet(maps[1]) + KeySet(maps[2])
      invariant total == if i == 0 then 0 else if i == 1 then CatalogTotal(maps[0]) else if i == 2 then CatalogTotal(maps[0]) + CatalogTotal(maps[1]) else CatalogTotal(maps[0]) + CatalogTotal(maps[1]) + CatalogTotal(maps[2])
    {
      if maps[i].Some? {
        var n, t := CountCatalog(maps[i].value);
        names, total := names + n, total + t;
      }
    }
  }

  // ----- the delete dialog -----

  const ImagesFolder := "assets/images/"

  /** A question whose image is a file in the image folder. */
  predicate HasLocalImage(q: Question) {
    q.image.Some? && q.image.value != "" && StartsWith(q.image.value, ImagesFolder)
  }

  /** The questions of a list with a local image. */
  function ImageCount(qs: seq<Question>): (n: nat)
    ensures n <= |qs|
  {
    if |qs| == 0 then 0 else ImageCount(qs[..|qs| - 1]) + (if HasLocalImage(qs[|qs| - 1]) then 1 else 0)
  }

  /** A list with no local image counts 0, and a list of local images counts all of them. */
  lemma {:induction false} ImageCountBounds(qs: seq<Question>)
    ensures ImageCount(qs) == 0 <==> forall i :: 0 <= i < |qs| ==> !HasLocalImage(qs[i])
    ensures ImageCount(qs) == |qs| <==> forall i :: 0 <= i < |qs| ==> HasLocalImage(qs[i])
  {
    if |qs| > 0 {
      ImageCountBounds(qs[..|qs| - 1]);
      assert forall i :: 0 <= i < |qs| - 1 ==> qs[i] == qs[..|qs| - 1][i];
    }
  }

  /** The top-level keys of the document, in the order the model keeps them. */
  const TopLevelNames: seq<string> := ["questions", "image-based", "time-limited"]

  /** What getCategoryInfo reports for a category name. */
  datatype CategoryInfo = CategoryInfo(modes: seq<string>, totalQuestions: nat, imageCount: nat)

  /** The list under `name` in the top-level map `mode`, None when either is absent. */
  function ListIn(d: QuizDocument, mode: string, name: string): Option<seq<Question>> {
    var c := TopLevel(d, mode);
    if c.Some? && name in c.value.entries then Some(c.value.entries[name]) else None
  }

  /** The category info over the top-level keys `modes`. */
  function InfoOver(d: QuizDocument, modes: seq<string>, name: string): CategoryInfo {
    if |modes| == 0 then CategoryInfo([], 0, 0)
    else
      var prev := InfoOver(d, modes[..|modes| - 1], name);
      var mode := modes[|modes| - 1];
      match ListIn(d, mode, name)
      case None => prev
      case Some(qs) => CategoryInfo(prev.modes + [mode], prev.totalQuestions + |qs|, prev.imageCount + ImageCount(qs))
  }

  /** The modes listed are exactly those that have the category, and never more images than questions. */
  lemma {:induction false} InfoOverMeans(d: QuizDocument, modes: seq<string>, name: string)
    ensures var info := InfoOver(d, modes, name);
      (forall m :: m in info.modes <==> m in modes && ListIn(d, m, name).Some?) &&
      info.imageCount <= info.totalQuestions
  {
    if |modes| > 0 {
      InfoOverMeans(d, modes[..|modes| - 1], name);
      assert forall m :: m in modes <==> m in modes[..|modes| - 1] || m == modes[|modes| - 1];
    }
  }

  /** `getCategoryInfo(name)`: the modes that have the category, their question total and their local images. */
  method GetCategoryInfo(d: QuizDocument, name: string) returns (info: CategoryInfo)
    ensures info == InfoOver(d, TopLevelNames, name)
    ensures forall m :: m in info.modes <==> m in TopLevelNames && ListIn(d, m, name).Some?
    ensures info.imageCount <= info.totalQuestions
  {
    info := CategoryInfo([], 0, 0);
    var modes := TopLevelNames;
    for i := 0 to |modes|
      invariant info == InfoOver(d, modes[..i], name)
    {
      assert modes[..i + 1][..i] == modes[..i];
      var list := ListIn(d, modes[i], name);
      if list.Some? {
        var qs := list.value;
        var images := 0;
        for j := 0 to |qs|
          invariant images == ImageCount(qs[..j])
        {
          assert qs[..j + 1][..j] == qs[..j];
          if HasLocalImage(qs[j]) {
            images := images + 1;
          }
        }
        assert qs[..|qs|] == qs;
        info := CategoryInfo(info.modes + [modes[i]], info.totalQuestions + |qs|, info.imageCount + images);
      }
    }
    assert modes[..|modes|] == modes;
    InfoOverMeans(d, modes, name);
  }

  // ----- the admin panel -----

  /** The client's quiz document and the two question counters of the statistics panel. */
  class AdminPanel {
    var quizData: QuizDocument
    var totalCategories: nat
    var totalQuestions: nat

    /** The panel as the page opens it: the loaded document, counters at zero. */
    constructor (d: QuizDocument)
      ensures quizData == d && totalCategories == 0 && totalQuestions == 0
    {
      quizData, totalCategories, totalQuestions := d, 0, 0;
    }

    /** `updateAdminStats`: the distinct category names and the question total over all top-level maps. */
    method UpdateAdminStats()
      modifies this
      ensures quizData == old(quizData)
      ensures totalCategories == |CategoryNames(quizData)| && totalQuestions == QuestionCount(quizData)
    {
      var names, total := CountDocument(quizData);
      totalCategories, totalQuestions := |names|, total;
    }

    /**
     * `handleAddCategory`: on acceptance the document gets the new empty
     * category and the counters are refreshed; otherwise nothing changes.
     */
    method HandleAddCategory(rawName: string, imageBased: bool, timeLimited: bool) returns (outcome: CategoryOutcome)
      modifies this
      ensures (quizData, outcome) == AddCategory(old(quizData), rawName, imageBased, timeLimited)
      ensures outcome.CategoryAdded? ==>
        totalCategories == |CategoryNames(quizData)| && totalQuestions == QuestionCount(quizData)
      ensures !outcome.CategoryAdded? ==>
        totalCategories == old(totalCategories) && totalQuestions == old(totalQuestions)
    {
      var name := App.Trim(rawName);
      var modes := SelectedModes(imageBased, timeLimited);
      if name == "" {
        return MissingName;
      }
      if !IsValidCategoryName(name) {
        return InvalidName;
      }
      if |modes| == 0 {
        return NoModes;
      }
      var existing := FindExistingModes(quizData, modes, name);
      if |existing| > 0 {
        return AlreadyExists(existing);
      }
      var created := CreateInSources(quizData, modes, name);
      quizData := created;
      UpdateAdminStats();
      outcome := CategoryAdded(name, modes);
    }

    /**
     * `migrateToUnifiedStructure`: the unified map of the document becomes
     * the migrated one. The backend save reports failure by its return value,
     * which is not looked at, and the backup catches its own errors, so the
     * answer is always true.
     */
    method MigrateToUnifiedStructure() returns (ok: bool, migrated: nat, duplicates: nat)
      modifies this
      ensures quizData == MigratedDocument(old(quizData))
      ensures migrated == Migrate(old(quizData)).migrated && duplicates == Migrate(old(quizData)).duplicates
      ensures ok
      ensures totalCategories == old(totalCategories) && totalQuestions == old(totalQuestions)
    {
      var d := quizData;
      var m := Migration(CatalogOrEmpty(d.questions), {}, 0, 0);
      if d.imageBased.Some? {
        m := MigrateCategories(m, d.imageBased.value);
      }
      if d.timeLimited.Some? {
        m := MigrateCategories(m, d.timeLimited.value);
      }
      quizData := d.(questions := Some(m.unified));
      migrated, duplicates := m.migrated, m.duplicates;
      ok := true;
    }
  }
}
