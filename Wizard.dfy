/**
 * The wizard's user-interface state as a value, and one function per handler
 * describing what the handler does to it: the step navigator, the visibility
 * rules, the drug autocomplete and the submit pipeline.
 */
module Wizard {
  import opened Wrappers
  import opened Text
  import opened FileEncoding
  import opened Form
  import opened Payload

  /** The class list of the status element: "status", "status status--ok" or "status status--err". */
  datatype StatusClass = Plain | OkClass | ErrClass

  /** The status element: shown or not, its class and its text. */
  datatype Status = Status(visible: bool, cls: StatusClass, text: string)

  /** One item of the drug search response; `caption` is its JSON `label`. */
  datatype Suggestion = Suggestion(id: int, caption: string)

  /** How the drug search ends: the items of the response, or a failure (HTTP error, network, JSON). */
  datatype SearchOutcome = Items(items: seq<Suggestion>) | Failure

  /** A rendered suggestion row: its text, and the drug id its click handler writes. */
  datatype Row = Row(caption: string, id: string)

  /** The two yes/no questions that own a textarea. */
  datatype Area = Allergies | Chronic

  /** The parts of the checkout response body that are read. */
  datatype Body = Body(error: Option<string>, patientId: Option<string>)

  /**
   * How the checkout request ends: a 2xx response, another response, or an
   * exception (network failure or a body that is not JSON) with its name and message.
   */
  datatype HttpOutcome = Ok(body: Body) | NotOk(status: nat, body: Body) | Thrown(name: string, message: string)

  /** Everything the handlers read or write on the page. */
  datatype Ui = Ui(
    form: Snapshot,
    step1: bool, step2: bool, tab1: bool, tab2: bool,
    status: Status,
    rows: seq<Row>,
    drugBlock: bool, noPeselBlock: bool,
    allergiesDisabled: bool, chronicDisabled: bool)

  /** What the page shows apart from the form values and the suggestion rows. */
  datatype Screen = Screen(
    step1: bool, step2: bool, tab1: bool, tab2: bool,
    status: Status,
    drugBlock: bool, noPeselBlock: bool,
    allergiesDisabled: bool, chronicDisabled: bool)

  function ScreenOf(u: Ui): Screen {
    Screen(u.step1, u.step2, u.tab1, u.tab2, u.status, u.drugBlock, u.noPeselBlock, u.allergiesDisabled, u.chronicDisabled)
  }

  /** Panels, tabs, status, blocks and textarea states agree: only the form values and the rows may differ. */
  predicate SameScreen(a: Ui, b: Ui) {
    ScreenOf(a) == ScreenOf(b)
  }

  /** The display of the two blocks and the state of the two textareas. */
  datatype Blocks = Blocks(drugBlock: bool, noPeselBlock: bool, allergiesDisabled: bool, chronicDisabled: bool)

  function BlocksOf(u: Ui): Blocks {
    Blocks(u.drugBlock, u.noPeselBlock, u.allergiesDisabled, u.chronicDisabled)
  }

  /** The two blocks are shown alike and the two textareas are enabled alike. */
  predicate SameBlocks(a: Ui, b: Ui) {
    BlocksOf(a) == BlocksOf(b)
  }

  const ErrPickDrug: string := "errPickDrug"
  const ErrFillRequired: string := "errFillRequired"
  const Submitting: string := "submitting"
  const SuccessKey: string := "success"
  const FailureKey: string := "failure"
  const Yes: string := "yes"
  const DrugDebounceMs: nat := 300
  const MinQueryLength: nat := 2

  /** clearStatus */
  function Cleared(): (r: Status)
    ensures !r.visible && r.cls == Plain && r.text == []
  {
    Status(false, Plain, "")
  }

  /** setStatus(kind, msg): every kind other than "ok" is an error; visibility is untouched. */
  function SetStatus(s: Status, kind: string, msg: string): (r: Status)
    ensures r.visible == s.visible && r.text == msg
    ensures r.cls == OkClass <==> kind == "ok"
    ensures r.cls != Plain
  {
    s.(cls := if kind == "ok" then OkClass else ErrClass, text := msg)
  }

  /** showStatus */
  function ShowStatus(s: Status): (r: Status)
    ensures r.visible && r.cls == s.cls && r.text == s.text
  {
    s.(visible := true)
  }

  /** showStep(n): panel i and tab i are active exactly when n == i. */
  function ShowStep(u: Ui, n: int): (r: Ui)
    ensures n == 1 || n == 2 ==> (r.step1 <==> !r.step2) && (r.step1 <==> n == 1)
    ensures r.tab1 == r.step1 && r.tab2 == r.step2
    ensures n != 1 && n != 2 ==> !r.step1 && !r.step2
    ensures r.(step1 := u.step1, step2 := u.step2, tab1 := u.tab1, tab2 := u.tab2) == u
  {
    u.(step1 := n == 1, step2 := n == 2, tab1 := n == 1, tab2 := n == 2)
  }

  /** The Next button: to step 2 when step 1 is valid, else an error and no move. */
  function Next(u: Ui, t: string -> string): (r: Ui)
    ensures ValidateStep1(u.form) ==> r.step2 && !r.step1 && r.tab2 && !r.tab1 && r.status == u.status
    ensures !ValidateStep1(u.form) ==>
      r.step1 == u.step1 && r.step2 == u.step2 && r.tab1 == u.tab1 && r.tab2 == u.tab2
      && r.status == Status(true, ErrClass, t(ErrPickDrug))
    ensures r.form == u.form && r.rows == u.rows && SameBlocks(r, u)
  {
    if !ValidateStep1(u.form) then u.(status := SetStatus(ShowStatus(u.status), "err", t(ErrPickDrug)))
    else ShowStep(u, 2)
  }

  /** toggleDrugBlock: the drug block is shown exactly in "self" mode. */
  function ToggleDrugBlock(u: Ui): (r: Ui)
    ensures r.drugBlock <==> u.form.medMode == Some(SelfMode)
    ensures r.(drugBlock := u.drugBlock) == u
  {
    u.(drugBlock := u.form.medMode == Some(SelfMode))
  }

  /** The change handler of the noPesel box: its block is shown exactly when it is checked. */
  function ToggleNoPeselBlock(u: Ui): (r: Ui)
    ensures r.noPeselBlock == u.form.noPesel
    ensures r.(noPeselBlock := u.noPeselBlock) == u
  {
    u.(noPeselBlock := u.form.noPesel)
  }

  function Answer(f: Snapshot, a: Area): Option<string> {
    match a
    case Allergies => f.allergies
    case Chronic => f.chronic
  }

  function AreaText(f: Snapshot, a: Area): string {
    match a
    case Allergies => f.allergiesText
    case Chronic => f.chronicText
  }

  function Disabled(u: Ui, a: Area): bool {
    match a
    case Allergies => u.allergiesDisabled
    case Chronic => u.chronicDisabled
  }

  function Other(a: Area): Area {
    match a
    case Allergies => Chronic
    case Chronic => Allergies
  }

  /**
   * toggleTextArea: the textarea is disabled exactly when its question is not
   * answered "yes", and then emptied; a "yes" keeps the text; nothing else changes.
   */
  function ToggleTextArea(u: Ui, a: Area): (r: Ui)
    ensures Disabled(r, a) <==> Answer(u.form, a) != Some(Yes)
    ensures Disabled(r, a) ==> AreaText(r.form, a) == []
    ensures !Disabled(r, a) ==> AreaText(r.form, a) == AreaText(u.form, a)
    ensures Disabled(r, Other(a)) == Disabled(u, Other(a)) && AreaText(r.form, Other(a)) == AreaText(u.form, Other(a))
    ensures Answer(r.form, a) == Answer(u.form, a)
    ensures r.form.(allergiesText := u.form.allergiesText, chronicText := u.form.chronicText) == u.form
    ensures r.rows == u.rows
    ensures ScreenOf(r).(allergiesDisabled := u.allergiesDisabled, chronicDisabled := u.chronicDisabled) == ScreenOf(u)
  {
    var off := Answer(u.form, a) != Some(Yes);
    match a
    case Allergies =>
      u.(allergiesDisabled := off, form := if off then u.form.(allergiesText := "") else u.form)
    case Chronic =>
      u.(chronicDisabled := off, form := if off then u.form.(chronicText := "") else u.form)
  }

  /** Toggling a textarea twice is toggling it once. */
  lemma ToggleTextAreaIdempotent(u: Ui, a: Area)
    ensures ToggleTextArea(ToggleTextArea(u, a), a) == ToggleTextArea(u, a)
  {
  }

  /** init: the markup shows step 1 with the status hidden; the three toggles then run once. */
  function Init(f: Snapshot): (r: Ui)
    ensures r.step1 && !r.step2 && r.tab1 && !r.tab2 && r.status == Cleared() && r.rows == []
    ensures r.drugBlock <==> f.medMode == Some(SelfMode)
    ensures r.allergiesDisabled <==> f.allergies != Some(Yes)
    ensures r.chronicDisabled <==> f.chronic != Some(Yes)
    ensures r.allergiesDisabled ==> r.form.allergiesText == []
    ensures r.chronicDisabled ==> r.form.chronicText == []
    ensures !r.noPeselBlock
    ensures !r.allergiesDisabled ==> r.form.allergiesText == f.allergiesText
    ensures !r.chronicDisabled ==> r.form.chronicText == f.chronicText
    ensures r.form.(allergiesText := f.allergiesText, chronicText := f.chronicText) == f
  {
    var markup := Ui(f, true, false, true, false, Cleared(), [], false, false, false, false);
    ToggleTextArea(ToggleTextArea(ToggleDrugBlock(markup), Allergies), Chronic)
  }

  /** closeDrugDropdown */
  function CloseDrugDropdown(u: Ui): (r: Ui)
    ensures r.rows == [] && r.form == u.form && SameScreen(r, u)
  {
    u.(rows := [])
  }

  /** The row rendered for one item: it shows the label and its click writes String(id). */
  function RowFor(it: Suggestion): Row {
    Row(it.caption, IntText(it.id))
  }

  function RowsFor(items: seq<Suggestion>): (r: seq<Row>)
    ensures |r| == |items| && forall k :: 0 <= k < |items| ==> r[k] == RowFor(items[k])
  {
    seq(|items|, k requires 0 <= k < |items| => RowFor(items[k]))
  }

  /** renderDrugResults: one row per item, labels in order; an empty list renders nothing. */
  function RenderDrugResults(u: Ui, items: seq<Suggestion>): (r: Ui)
    ensures |r.rows| == |items|
    ensures forall k :: 0 <= k < |items| ==> r.rows[k].caption == items[k].caption && r.rows[k].id == IntText(items[k].id)
    ensures r == u.(rows := RowsFor(items))
  {
    if |items| == 0 then
      assert RowsFor(items) == [];
      u.(rows := [])
    else u.(rows := RowsFor(items))
  }

  /** The click handler of row k: it copies the row's label and id into the fields and closes the list. */
  function SelectRow(u: Ui, k: nat): (r: Ui)
    requires k < |u.rows|
    ensures r.form == u.form.(drugName := u.rows[k].caption, drugId := u.rows[k].id)
    ensures r.rows == [] && SameScreen(r, u)
  {
    CloseDrugDropdown(u.(form := u.form.(drugName := u.rows[k].caption, drugId := u.rows[k].id)))
  }

  /** A keystroke in the drug field changes its text only: the id stays until the timer fires. */
  function TypeDrugName(u: Ui, text: string): (r: Ui)
    ensures r.form.drugName == text && r.form.drugId == u.form.drugId
    ensures r == u.(form := u.form.(drugName := text))
  {
    u.(form := u.form.(drugName := text))
  }

  /**
   * The query onDrugInput searches for when its timer fires: the trimmed
   * text in "self" mode when it is at least two UTF-16 units long, else none.
   */
  function DrugQuery(f: Snapshot): (q: Option<string>)
    ensures q.Some? <==> f.medMode == Some(SelfMode) && Utf16Length(Trim(f.drugName)) >= MinQueryLength
    ensures q.Some? ==> q.value == Trim(f.drugName) && HasText(q.value)
  {
    if f.medMode != Some(SelfMode) then None
    else if Utf16Length(Trim(f.drugName)) < MinQueryLength then None
    else
      TrimIdempotent(f.drugName);
      TrimEmptyIff(Trim(f.drugName));
      Some(Trim(f.drugName))
  }

  /**
   * The body of onDrugInput, run when the debounce timer fires, with the
   * outcome of the search (if one is made) supplied.
   */
  function DrugInputFired(u: Ui, outcome: SearchOutcome): (r: Ui)
    ensures u.form.medMode != Some(SelfMode) ==> r == u
    ensures u.form.medMode == Some(SelfMode) ==> r.form == u.form.(drugId := "")
    ensures u.form.medMode == Some(SelfMode) && DrugQuery(u.form).None? ==> r.rows == []
    ensures DrugQuery(u.form).Some? ==> r.rows == (if outcome.Items? then RowsFor(outcome.items) else [])
    ensures SameScreen(r, u)
  {
    if u.form.medMode != Some(SelfMode) then u
    else
      var q := Trim(u.form.drugName);
      var reset := u.(form := u.form.(drugId := ""));
      if Utf16Length(q) < MinQueryLength then CloseDrugDropdown(reset)
      else ShowSuggestions(reset, outcome)
  }

  /** The search made by onDrugInput: its items are rendered, and a failure closes the list. */
  function ShowSuggestions(u: Ui, outcome: SearchOutcome): (r: Ui)
    ensures r.form == u.form && SameScreen(r, u)
    ensures r.rows == if outcome.Items? then RowsFor(outcome.items) else []
  {
    match outcome
    case Items(items) => RenderDrugResults(u, items)
    case Failure => CloseDrugDropdown(u)
  }

  /** Choosing row k after rendering a list writes that item's label and String(id). */
  lemma SelectAfterRender(u: Ui, items: seq<Suggestion>, k: nat)
    requires k < |items|
    ensures var r := SelectRow(RenderDrugResults(u, items), k);
      r.form.drugName == items[k].caption && r.form.drugId == IntText(items[k].id) && r.rows == []
  {
  }

  /** A chosen suggestion satisfies the drug condition of step 1. */
  lemma SelectionSatisfiesStep1(u: Ui, items: seq<Suggestion>, k: nat)
    requires k < |items|
    requires u.form.medMode == Some(SelfMode) && PackagesPass(u.form.packages)
    ensures ValidateStep1(SelectRow(RenderDrugResults(u, items), k).form)
  {
    var f := SelectRow(RenderDrugResults(u, items), k).form;
    IntTextHasText(items[k].id);
    Step1Exactly(f);
  }

  /**
   * In "self" mode, once the timer fires after any keystroke the chosen id is
   * gone, even when the text typed equals the chosen label, and step 1 fails.
   */
  lemma FiredInputDropsSelection(u: Ui, items: seq<Suggestion>, k: nat, text: string, outcome: SearchOutcome)
    requires k < |items|
    requires u.form.medMode == Some(SelfMode)
    ensures var chosen := SelectRow(RenderDrugResults(u, items), k);
      var after := DrugInputFired(TypeDrugName(chosen, text), outcome);
      after.form.drugId == [] && after.form.drugName == text && !ValidateStep1(after.form)
  {
  }

  /** One character outside the Basic Multilingual Plane is two UTF-16 units, so it is searched for. */
  lemma AstralQuerySearched(f: Snapshot)
    requires f.medMode == Some(SelfMode) && f.drugName == "\U{1F48A}"
    ensures DrugQuery(f) == Some(f.drugName)
  {
    var c := f.drugName;
    assert !IsWhitespace(c[0]);
    assert TrimStart(c) == c;
    assert TrimEnd(c) == c;
    assert c[..0] == [];
    assert Utf16Length(Trim(c)) == 2;
  }

  /** String(patientId): an absent field prints as "undefined". */
  function PatientIdText(p: Option<string>): string {
    match p
    case Some(id) => id
    case None => "undefined"
  }

  /**
   * The message of the caught error: for a non-2xx response the Error built
   * from the body's error text, or "HTTP <status>" when that is absent or
   * empty; otherwise the exception's message, or its name when that is empty.
   */
  function FailureMessage(http: HttpOutcome): (r: string)
    requires !http.Ok?
    ensures r == [] ==> http.Thrown? && http.message == [] && http.name == []
  {
    var message :=
      if http.NotOk? then
        if http.body.error.Some? && http.body.error.value != [] then http.body.error.value
        else "HTTP " + NatText(http.status)
      else http.message;
    var name := if http.NotOk? then "Error" else http.name;
    if message != [] then message else name
  }

  /**
   * For a non-2xx reply the server's message wins, then the HTTP status, and
   * the message is never empty; for a thrown exception its message wins, then its name.
   */
  lemma FailureMessagePrecedence(http: HttpOutcome)
    requires !http.Ok?
    ensures http.NotOk? ==> FailureMessage(http) != []
    ensures http.NotOk? && http.body.error.Some? && http.body.error.value != [] ==>
      FailureMessage(http) == http.body.error.value
    ensures http.NotOk? && (http.body.error.None? || http.body.error.value == []) ==>
      FailureMessage(http) == "HTTP " + NatText(http.status)
    ensures http.Thrown? && http.message != [] ==> FailureMessage(http) == http.message
    ensures http.Thrown? && http.message == [] ==> FailureMessage(http) == http.name
  {
  }

  /** The status text once the checkout request settles. */
  function Outcome(s: Status, t: string -> string, http: HttpOutcome): (r: Status)
    ensures r.visible == s.visible
    ensures r.cls == if http.Ok? then OkClass else ErrClass
    ensures http.Ok? ==> r.text == t(SuccessKey) + PatientIdText(http.body.patientId)
    ensures !http.Ok? ==> r.text == t(FailureKey) + FailureMessage(http)
  {
    match http
    case Ok(body) => SetStatus(s, "ok", t(SuccessKey) + PatientIdText(body.patientId))
    case _ => SetStatus(s, "err", t(FailureKey) + FailureMessage(http))
  }

  /** Both gates of submitCheckout pass and every selected file can be read. */
  predicate Sends(f: Snapshot) {
    ValidateStep1(f) && ValidateStep2(f) && EncodeAll(f.files).Encoded?
  }

  /** The payload submitCheckout posts, when it gets as far as the request. */
  function Posted(f: Snapshot, language: string): (p: Option<Payload>)
    ensures p.Some? <==>
      ValidateStep1(f) && ValidateStep2(f) && forall k :: 0 <= k < |f.files| ==> f.files[k].read.Loaded?
    ensures p.Some? ==> p.value.files == EncodeAll(f.files).records && |p.value.files| == |f.files|
    ensures p.Some? ==> p.value == Build(f, language, EncodeAll(f.files).records)
  {
    if Sends(f) then Some(Build(f, language, EncodeAll(f.files).records)) else None
  }

  /**
   * The page after submitCheckout, with the checkout outcome supplied: the
   * status is cleared, then set by the first gate that fails or by the
   * request. The form, the rows and the blocks stay as they were; the three
   * lemmas below give the whole page for each way the call can go.
   */
  function Submit(u: Ui, t: string -> string, http: HttpOutcome): (r: Ui)
    ensures r.form == u.form && r.rows == u.rows && SameBlocks(r, u)
  {
    var cleared := u.(status := Cleared());
    if !ValidateStep1(u.form) then
      ShowStep(cleared, 1).(status := SetStatus(ShowStatus(cleared.status), "err", t(ErrPickDrug)))
    else if !ValidateStep2(u.form) then
      cleared.(status := SetStatus(ShowStatus(cleared.status), "err", t(ErrFillRequired)))
    else
      var submitting := cleared.(status := SetStatus(ShowStatus(cleared.status), "ok", t(Submitting)));
      match EncodeAll(u.form.files)
      case Rejected(_) => submitting
      case Encoded(_) => submitting.(status := Outcome(submitting.status, t, http))
  }

  /** A failing step 1 brings its panel back with the "pick a drug" error; nothing else changes. */
  lemma SubmitStopsAtStep1(u: Ui, t: string -> string, http: HttpOutcome)
    requires !ValidateStep1(u.form)
    ensures Submit(u, t, http) == ShowStep(u, 1).(status := Status(true, ErrClass, t(ErrPickDrug)))
  {
  }

  /** A failing step 2 shows the "fill required" error and changes nothing else. */
  lemma SubmitStopsAtStep2(u: Ui, t: string -> string, http: HttpOutcome)
    requires ValidateStep1(u.form) && !ValidateStep2(u.form)
    ensures Submit(u, t, http) == u.(status := Status(true, ErrClass, t(ErrFillRequired)))
  {
  }

  /** Past both gates only the status changes: "submitting", then the outcome if the request is made. */
  lemma SubmitPastGates(u: Ui, t: string -> string, http: HttpOutcome)
    requires ValidateStep1(u.form) && ValidateStep2(u.form)
    ensures var submitting := Status(true, OkClass, t(Submitting));
      Submit(u, t, http) == u.(status := if Sends(u.form) then Outcome(submitting, t, http) else submitting)
  {
  }

  /** A "self" order with no drug chosen and one package is stopped at step 1. */
  lemma SubmitWithoutDrug(u: Ui, t: string -> string, language: string, http: HttpOutcome)
    requires u.form.medMode == Some(SelfMode) && u.form.drugId == [] && u.form.packages == Numeric(1)
    ensures Posted(u.form, language) == None
    ensures var r := Submit(u, t, http);
      r.step1 && r.status == Status(true, ErrClass, t(ErrPickDrug))
  {
  }

  /** A valid order whose files all read is posted, and the patient id from the reply is shown. */
  lemma SubmitShowsPatientId(u: Ui, t: string -> string, language: string, id: string, error: Option<string>)
    requires u.form.medMode == Some("other") && u.form.packages == Numeric(2)
    requires ValidateStep2(u.form)
    requires forall k :: 0 <= k < |u.form.files| ==> u.form.files[k].read.Loaded?
    ensures Posted(u.form, language).Some?
    ensures Submit(u, t, Ok(Body(error, Some(id)))).status == Status(true, OkClass, t(SuccessKey) + id)
  {
    assert ValidateStep1(u.form);
    assert Sends(u.form);
    var s := Status(true, OkClass, t(Submitting));
    assert Outcome(s, t, Ok(Body(error, Some(id)))) == Status(true, OkClass, t(SuccessKey) + id);
  }

  /** A 400 reply carrying an error message shows that message after the failure prefix. */
  lemma SubmitShowsServerError(u: Ui, t: string -> string, language: string, message: string, id: Option<string>)
    requires ValidateStep1(u.form) && ValidateStep2(u.form)
    requires forall k :: 0 <= k < |u.form.files| ==> u.form.files[k].read.Loaded?
    requires message != []
    ensures Posted(u.form, language).Some?
    ensures Submit(u, t, NotOk(400, Body(Some(message), id))).status == Status(true, ErrClass, t(FailureKey) + message)
  {
    var http := NotOk(400, Body(Some(message), id));
    assert Sends(u.form);
    assert FailureMessage(http) == message;
    var s := Status(true, OkClass, t(Submitting));
    assert Outcome(s, t, http) == Status(true, ErrClass, t(FailureKey) + message);
  }
}
