/**
 * The page itself: the element properties the handlers write, held as fields
 * of one object, and one method per handler. Each method is proved to leave
 * the page in the state the matching function of module Wizard describes.
 */
module WizardPage {
  import opened Wrappers
  import opened Text
  import opened FileEncoding
  import opened Form
  import opened Payload
  import opened Debounce
  import opened Wizard

  class Page {
    var form: Snapshot
    var step1Active: bool
    var step2Active: bool
    var tab1Active: bool
    var tab2Active: bool
    var statusVisible: bool
    var statusClass: StatusClass
    var statusText: string
    var rows: seq<Row>
    var drugBlockShown: bool
    var noPeselBlockShown: bool
    var allergiesDisabled: bool
    var chronicDisabled: bool
    /** The debounced wrapper onDrugInput; the input event it receives is not used. */
    const timer: Debouncer<()>

    function View(): Ui
      reads this
    {
      Ui(form, step1Active, step2Active, tab1Active, tab2Active,
         Status(statusVisible, statusClass, statusText), rows,
         drugBlockShown, noPeselBlockShown, allergiesDisabled, chronicDisabled)
    }

    /** The page as loaded, after init() has run its toggles. */
    constructor (f: Snapshot)
      ensures View() == Wizard.Init(f)
      ensures fresh(timer) && timer.ms == DrugDebounceMs && timer.State() == Timer(0, None)
    {
      form := f;
      step1Active, step2Active, tab1Active, tab2Active := true, false, true, false;
      statusVisible, statusClass, statusText := false, Plain, "";
      rows := [];
      drugBlockShown, noPeselBlockShown := false, false;
      allergiesDisabled, chronicDisabled := false, false;
      timer := new Debouncer(DrugDebounceMs);
      new;
      ToggleDrugBlock();
      ToggleTextArea(Allergies);
      ToggleTextArea(Chronic);
    }

    method ClearStatus()
      modifies this
      ensures View() == old(View()).(status := Wizard.Cleared())
    {
      statusClass := Plain;
      statusText := "";
      statusVisible := false;
    }

    method ShowStatus()
      modifies this
      ensures View() == old(View()).(status := Wizard.ShowStatus(old(View()).status))
    {
      statusVisible := true;
    }

    method SetStatus(kind: string, msg: string)
      modifies this
      ensures View() == old(View()).(status := Wizard.SetStatus(old(View()).status, kind, msg))
    {
      statusClass := if kind == "ok" then OkClass else ErrClass;
      statusText := msg;
    }

    method ShowStep(n: int)
      modifies this
      ensures View() == Wizard.ShowStep(old(View()), n)
    {
      step1Active := n == 1;
      step2Active := n == 2;
      tab1Active := n == 1;
      tab2Active := n == 2;
    }

    /** The click handler of the Next button. */
    method Next(t: string -> string)
      modifies this
      ensures View() == Wizard.Next(old(View()), t)
    {
      if !ValidateStep1(form) {
        ShowStatus();
        SetStatus("err", t(ErrPickDrug));
        return;
      }
      ShowStep(2);
    }

    /** The click handler of the Back button. */
    method Back()
      modifies this
      ensures View() == Wizard.ShowStep(old(View()), 1)
    {
      ShowStep(1);
    }

    method ToggleDrugBlock()
      modifies this
      ensures View() == Wizard.ToggleDrugBlock(old(View()))
    {
      drugBlockShown := form.medMode == Some(SelfMode);
    }

    method ToggleNoPeselBlock()
      modifies this
      ensures View() == Wizard.ToggleNoPeselBlock(old(View()))
    {
      noPeselBlockShown := form.noPesel;
    }

    method ToggleTextArea(a: Area)
      modifies this
      ensures View() == Wizard.ToggleTextArea(old(View()), a)
    {
      var off := Answer(form, a) != Some(Yes);
      match a
      case Allergies =>
        allergiesDisabled := off;
        if off { form := form.(allergiesText := ""); }
      case Chronic =>
        chronicDisabled := off;
        if off { form := form.(chronicText := ""); }
    }

    method CloseDrugDropdown()
      modifies this
      ensures View() == Wizard.CloseDrugDropdown(old(View()))
    {
      rows := [];
    }

    /** renderDrugResults: the rows are appended one item at a time, then replace the list. */
    method RenderDrugResults(items: seq<Suggestion>)
      modifies this
      ensures View() == Wizard.RenderDrugResults(old(View()), items)
    {
      if |items| == 0 {
        rows := [];
        return;
      }
      var list: seq<Row> := [];
      for i := 0 to |items|
        invariant list == RowsFor(items)[..i]
      {
        list := list + [RowFor(items[i])];
      }
      rows := list;
    }

    /** The click handler bound to row k. */
    method SelectRow(k: nat)
      requires k < |rows|
      modifies this
      ensures View() == Wizard.SelectRow(old(View()), k)
    {
      form := form.(drugName := rows[k].caption, drugId := rows[k].id);
      CloseDrugDropdown();
    }

    /** A keystroke in the drug field: the text changes and the debounced call is (re)scheduled. */
    method TypeDrugName(text: string)
      modifies this, timer
      ensures View() == Wizard.TypeDrugName(old(View()), text)
      ensures timer.State() == Step(old(timer.State()), Called(()), timer.ms).0
    {
      form := form.(drugName := text);
      timer.Call(());
    }

    /** The callback of onDrugInput, given the outcome of the search it would make. */
    method OnDrugInput(outcome: SearchOutcome) returns (query: Option<string>)
      modifies this
      ensures query == DrugQuery(old(form))
      ensures View() == DrugInputFired(old(View()), outcome)
    {
      if form.medMode != Some(SelfMode) {
        return None;
      }
      query := SearchDrug(outcome);
    }

    /** onDrugInput in "self" mode: the chosen id is dropped, then the search runs if the query is long enough. */
    method SearchDrug(outcome: SearchOutcome) returns (query: Option<string>)
      modifies this
      ensures Utf16Length(Trim(old(form).drugName)) < MinQueryLength ==>
        query == None && View() == Wizard.CloseDrugDropdown(old(View()).(form := old(form).(drugId := "")))
      ensures Utf16Length(Trim(old(form).drugName)) >= MinQueryLength ==>
        query == Some(Trim(old(form).drugName))
        && View() == Wizard.ShowSuggestions(old(View()).(form := old(form).(drugId := "")), outcome)
    {
      var q := Trim(form.drugName);
      form := form.(drugId := "");
      if Utf16Length(q) < MinQueryLength {
        CloseDrugDropdown();
        return None;
      }
      query := Some(q);
      ShowSuggestions(outcome);
    }

    /** The search's result list is rendered; a failed search closes the list. */
    method ShowSuggestions(outcome: SearchOutcome)
      modifies this
      ensures View() == Wizard.ShowSuggestions(old(View()), outcome)
    {
      match outcome
      case Items(items) => RenderDrugResults(items);
      case Failure => CloseDrugDropdown();
    }

    /** One unit of time passes; when the debounce timer fires, the callback runs. */
    method Tick(outcome: SearchOutcome) returns (query: Option<string>)
      modifies this, timer
      ensures timer.State() == Step(old(timer.State()), Ticked, timer.ms).0
      ensures Step(old(timer.State()), Ticked, timer.ms).1.Some? ==>
        View() == DrugInputFired(old(View()), outcome) && query == DrugQuery(old(form))
      ensures Step(old(timer.State()), Ticked, timer.ms).1.None? ==> View() == old(View()) && query == None
    {
      var fired := timer.Tick();
      query := None;
      if fired.Some? {
        query := OnDrugInput(outcome);
      }
    }

    /**
     * submitCheckout, with the outcome of the checkout request supplied;
     * `sent` is the payload posted, if the call gets that far.
     */
    method SubmitCheckout(t: string -> string, language: string, http: HttpOutcome) returns (sent: Option<Payload>)
      modifies this
      ensures sent == Posted(old(form), language)
      ensures View() == Wizard.Submit(old(View()), t, http)
    {
      ClearStatus();
      if !ValidateStep1(form) {
        ShowStep(1);
        Report("err", t(ErrPickDrug));
        return None;
      }
      if !ValidateStep2(form) {
        Report("err", t(ErrFillRequired));
        return None;
      }
      Report("ok", t(Submitting));
      sent := SendOrder(t, language, http);
    }

    /** The showStatus(); setStatus(kind, msg) pair submitCheckout uses at each stage. */
    method Report(kind: string, msg: string)
      modifies this
      ensures View() == old(View()).(status := Wizard.SetStatus(Wizard.ShowStatus(old(View()).status), kind, msg))
    {
      ShowStatus();
      SetStatus(kind, msg);
    }

    /**
     * The part of submitCheckout after both gates: the files are read, and
     * when all of them load the payload is posted and the reply shown.
     */
    method SendOrder(t: string -> string, language: string, http: HttpOutcome) returns (sent: Option<Payload>)
      modifies this
      ensures EncodeAll(old(form).files).Rejected? ==> sent == None && View() == old(View())
      ensures EncodeAll(old(form).files).Encoded? ==>
        sent == Some(Build(old(form), language, EncodeAll(old(form).files).records))
        && View() == old(View()).(status := Outcome(old(View()).status, t, http))
    {
      var batch, _ := FilesToBase64(form.files);
      if batch.Rejected? {
        return None;
      }
      sent := Some(Build(form, language, batch.records));
      match http
      case Ok(body) => SetStatus("ok", t(SuccessKey) + PatientIdText(body.patientId));
      case _ => SetStatus("err", t(FailureKey) + FailureMessage(http));
    }
  }
}
