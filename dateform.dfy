/** The date form filler: the fixed order in which the six date sub-fields
    and the city box are filled, the keystrokes each fill sends, and what the
    form holds afterwards. */
module DateForm {
  import opened Wrappers
  import opened Numerals
  import opened Calendar
  import Coercion

  /** The six numeric inputs of the two date pickers. */
  datatype Field = FromYear | FromMonth | FromDay | ToYear | ToMonth | ToDay

  /** The keys the filler presses: 'Control+a', 'Delete', 'Tab', 'Enter'. */
  datatype Key = SelectAll | Delete | Tab | Enter

  /** One interaction with the page, as the page log records it. */
  datatype Action = Click(field: Field) | Press(key: Key) | Type(text: string) | ClickSearchButton

  /** The city typed into the autocomplete box after the to-year field. */
  const City: string := "مدينة الرياض"

  /** One block of the fill: a date sub-field set to a number, or the city
      autocomplete entry. */
  datatype Step = FillField(field: Field, value: nat) | ChooseCity

  /** The blocks of `fill_date_fields`, in the order the source runs them. */
  function FillPlan(w: DateWindow): (plan: seq<Step>)
    requires ValidDate(w.from) && ValidDate(w.to)
    ensures |plan| == 7 && plan[4] == ChooseCity
    ensures forall k :: 0 <= k < |plan| && plan[k].FillField? ==> plan[k].value >= 1
  {
    [ FillField(FromYear, w.from.year), FillField(FromMonth, w.from.month), FillField(FromDay, w.from.day),
      FillField(ToYear, w.to.year), ChooseCity, FillField(ToMonth, w.to.month), FillField(ToDay, w.to.day) ]
  }

  /** Filling a sub-field: click it, select all, delete, type the numeral
      `str(n)`. The city block: Tab, the city name, Enter. */
  function StepActions(step: Step): (acts: seq<Action>)
    ensures ClickSearchButton !in acts
    ensures step.FillField? ==> |acts| == 4 && acts[0] == Click(step.field) && acts[3] == Type(Numeral(step.value))
    ensures step.ChooseCity? ==> |acts| == 3 && forall a :: a in acts ==> !a.Click?
  {
    match step
    case FillField(f, n) => [Click(f), Press(SelectAll), Press(Delete), Type(Numeral(n))]
    case ChooseCity => [Press(Tab), Type(City), Press(Enter)]
  }

  /** The actions of a run of blocks, one block after the other. */
  function Script(steps: seq<Step>): seq<Action> {
    if steps == [] then [] else Script(steps[..|steps| - 1]) + StepActions(steps[|steps| - 1])
  }

  predicate Blocked(step: Step, missing: set<Field>) {
    step.FillField? && step.field in missing
  }

  /** The index of the first block whose input cannot be clicked (the click
      raises and the fill stops there), or |steps| when every click succeeds. */
  function StopIndex(steps: seq<Step>, missing: set<Field>): (k: nat)
    ensures k <= |steps|
    ensures forall i :: 0 <= i < k ==> !Blocked(steps[i], missing)
    ensures k < |steps| ==> Blocked(steps[k], missing)
  {
    if steps == [] then 0
    else if Blocked(steps[0], missing) then 0
    else 1 + StopIndex(steps[1..], missing)
  }

  /** Past a block the fill has reached: it stops there exactly when that
      block is blocked. */
  lemma StopIndexStep(steps: seq<Step>, missing: set<Field>, k: nat)
    requires k < |steps| && k <= StopIndex(steps, missing)
    ensures Blocked(steps[k], missing) <==> StopIndex(steps, missing) == k
  {
  }

  lemma ScriptSnoc(steps: seq<Step>, k: nat)
    requires k < |steps|
    ensures Script(steps[..k + 1]) == Script(steps[..k]) + StepActions(steps[k])
  {
    assert steps[..k + 1][..k] == steps[..k];
  }

  /** The fields the plan fills, in the order it fills them. */
  function FieldsOf(steps: seq<Step>): seq<Field> {
    if steps == [] then []
    else (if steps[0].FillField? then [steps[0].field] else []) + FieldsOf(steps[1..])
  }

  /** Fill order: from-year, from-month, from-day, to-year, then the city,
      then to-month and to-day; each sub-field gets the window's number. */
  lemma FillOrder(w: DateWindow)
    requires ValidDate(w.from) && ValidDate(w.to)
    ensures FieldsOf(FillPlan(w)) == [FromYear, FromMonth, FromDay, ToYear, ToMonth, ToDay]
    ensures FillPlan(w)[4] == ChooseCity
    ensures forall i :: 0 <= i < 4 ==> FillPlan(w)[i].FillField?
    ensures forall i :: 5 <= i < 7 ==> FillPlan(w)[i].FillField?
  {
    var p := FillPlan(w);
    assert FieldsOf(p[6..]) == [ToDay] by { assert p[6..][1..] == []; }
    assert FieldsOf(p[5..]) == [ToMonth, ToDay] by { assert p[5..][1..] == p[6..]; }
    assert FieldsOf(p[4..]) == [ToMonth, ToDay] by { assert p[4..][1..] == p[5..]; }
    assert FieldsOf(p[3..]) == [ToYear, ToMonth, ToDay] by { assert p[3..][1..] == p[4..]; }
    assert FieldsOf(p[2..]) == [FromDay, ToYear, ToMonth, ToDay] by { assert p[2..][1..] == p[3..]; }
    assert FieldsOf(p[1..]) == [FromMonth, FromDay, ToYear, ToMonth, ToDay] by { assert p[1..][1..] == p[2..]; }
  }

  /** The text typed into a sub-field is a numeral without leading zeros that
      reads back as the number it was typed from. */
  lemma TypedNumeral(n: nat)
    requires n >= 1
    ensures Numeral(n)[0] != '0'
    ensures Coercion.ExtractNumber(Numeral(n)) == Some(n)
  {
    Coercion.ExtractNumeral(n);
  }

  /** If a failure stops the fill at the to-year field, the three from-date
      sub-fields have been filled and nothing of the to-date has. */
  lemma StopAtToYear(w: DateWindow, missing: set<Field>)
    requires ValidDate(w.from) && ValidDate(w.to)
    requires FromYear !in missing && FromMonth !in missing && FromDay !in missing && ToYear in missing
    ensures StopIndex(FillPlan(w), missing) == 3
    ensures Script(FillPlan(w)[..3])
            == StepActions(FillField(FromYear, w.from.year))
             + StepActions(FillField(FromMonth, w.from.month))
             + StepActions(FillField(FromDay, w.from.day))
  {
    var p := FillPlan(w);
    assert StopIndex(p[3..], missing) == 0;
    assert StopIndex(p[2..], missing) == 1 by { assert p[2..][1..] == p[3..]; }
    assert StopIndex(p[1..], missing) == 2 by { assert p[1..][1..] == p[2..]; }
    assert p[..0] == [];
    ScriptSnoc(p, 0);
    ScriptSnoc(p, 1);
    ScriptSnoc(p, 2);
  }

  // ---- what the form holds ----

  /** The form as the keystrokes leave it: the focused input, whether its
      content is selected, the text of each date input and of the city box. */
  datatype Form = Form(focus: Option<Field>, selected: bool, values: map<Field, string>, city: string)

  /** The effect of one action: a click focuses an input, 'Control+a' selects
      its content, 'Delete' removes a selection, typing replaces a selection or
      appends, 'Tab' moves on to the city box and 'Enter' accepts the city. */
  function Apply(form: Form, a: Action): Form {
    match a
    case Click(f) => form.(focus := Some(f), selected := false)
    case Press(SelectAll) => form.(selected := true)
    case Press(Delete) =>
      (match form.focus
       case Some(f) => if form.selected then form.(values := form.values[f := []], selected := false) else form
       case None => if form.selected then form.(city := [], selected := false) else form)
    case Press(Tab) => form.(focus := None, selected := false)
    case Press(Enter) => form.(selected := false)
    case Type(t) =>
      (match form.focus
       case Some(f) =>
         var old_text := if form.selected || f !in form.values then [] else form.values[f];
         form.(values := form.values[f := old_text + t], selected := false)
       case None => form.(city := (if form.selected then [] else form.city) + t, selected := false))
    case ClickSearchButton => form
  }

  function Run(form: Form, actions: seq<Action>): Form
    decreases |actions|
  {
    if actions == [] then form else Run(Apply(form, actions[0]), actions[1..])
  }

  lemma {:induction false} RunAppend(form: Form, a: seq<Action>, b: seq<Action>)
    ensures Run(form, a + b) == Run(Run(form, a), b)
    decreases |a|
  {
    if a != [] {
      assert (a + b)[1..] == a[1..] + b;
      RunAppend(Apply(form, a[0]), a[1..], b);
    } else {
      assert a + b == b;
    }
  }

  /** Filling one sub-field leaves exactly the numeral in it, whatever it held
      before, and touches no other input. */
  lemma FillFieldEffect(form: Form, f: Field, n: nat)
    ensures Run(form, StepActions(FillField(f, n))).values == form.values[f := Numeral(n)]
  {
    var acts := StepActions(FillField(f, n));
    var s1 := Apply(form, Click(f));
    var s2 := Apply(s1, Press(SelectAll));
    var s3 := Apply(s2, Press(Delete));
    var s4 := Apply(s3, Type(Numeral(n)));
    assert s3.values == form.values[f := []] && !s3.selected && s3.focus == Some(f);
    assert s4.values == form.values[f := Numeral(n)] by {
      assert [] + Numeral(n) == Numeral(n);
    }
    assert Run(s4, acts[4..]) == s4 by { assert acts[4..] == []; }
    assert Run(s3, acts[3..]) == s4 by { assert acts[3..][1..] == acts[4..]; }
    assert Run(s2, acts[2..]) == s4 by { assert acts[2..][1..] == acts[3..]; }
    assert Run(s1, acts[1..]) == s4 by { assert acts[1..][1..] == acts[2..]; }
  }

  /** The city block leaves the date inputs alone. */
  lemma ChooseCityEffect(form: Form)
    ensures Run(form, StepActions(ChooseCity)).values == form.values
  {
    var acts := StepActions(ChooseCity);
    var s1 := Apply(form, Press(Tab));
    var s2 := Apply(s1, Type(City));
    var s3 := Apply(s2, Press(Enter));
    assert Run(s3, acts[3..]) == s3 by { assert acts[3..] == []; }
    assert Run(s2, acts[2..]) == s3 by { assert acts[2..][1..] == acts[3..]; }
    assert Run(s1, acts[1..]) == s3 by { assert acts[1..][1..] == acts[2..]; }
  }

  lemma {:induction false} RunScriptValues(form: Form, steps: seq<Step>)
    ensures Run(form, Script(steps)).values == FoldValues(form.values, steps)
  {
    if steps != [] {
      var init := steps[..|steps| - 1];
      var last := steps[|steps| - 1];
      RunAppend(form, Script(init), StepActions(last));
      RunScriptValues(form, init);
      var mid := Run(form, Script(init));
      match last {
        case FillField(f, n) => FillFieldEffect(mid, f, n);
        case ChooseCity => ChooseCityEffect(mid);
      }
    }
  }

  /** The date inputs after a run of blocks, computed block by block. */
  function FoldValues(values: map<Field, string>, steps: seq<Step>): map<Field, string> {
    if steps == [] then values
    else
      var before := FoldValues(values, steps[..|steps| - 1]);
      match steps[|steps| - 1]
      case FillField(f, n) => before[f := Numeral(n)]
      case ChooseCity => before
  }

  /** After a complete fill the six inputs hold the window, whatever they
      held before: each holds the numeral of the year, month or day of the
      from-date or the to-date. */
  lemma FormHoldsWindow(form: Form, w: DateWindow)
    requires ValidDate(w.from) && ValidDate(w.to)
    ensures Run(form, Script(FillPlan(w))).values
            == form.values[FromYear := Numeral(w.from.year)][FromMonth := Numeral(w.from.month)]
                          [FromDay := Numeral(w.from.day)][ToYear := Numeral(w.to.year)]
                          [ToMonth := Numeral(w.to.month)][ToDay := Numeral(w.to.day)]
  {
    var p := FillPlan(w);
    RunScriptValues(form, p);
    var v := form.values;
    assert p[..0] == [];
    var m1 := v[FromYear := Numeral(w.from.year)];
    var m2 := m1[FromMonth := Numeral(w.from.month)];
    var m3 := m2[FromDay := Numeral(w.from.day)];
    var m4 := m3[ToYear := Numeral(w.to.year)];
    var m6 := m4[ToMonth := Numeral(w.to.month)];
    var m7 := m6[ToDay := Numeral(w.to.day)];
    FoldFill(v, p, 0, FromYear, w.from.year);
    assert FoldValues(v, p[..1]) == m1;
    FoldFill(v, p, 1, FromMonth, w.from.month);
    assert FoldValues(v, p[..2]) == m2;
    FoldFill(v, p, 2, FromDay, w.from.day);
    assert FoldValues(v, p[..3]) == m3;
    FoldFill(v, p, 3, ToYear, w.to.year);
    assert FoldValues(v, p[..4]) == m4;
    FoldCity(v, p, 4);
    assert FoldValues(v, p[..5]) == m4;
    FoldFill(v, p, 5, ToMonth, w.to.month);
    assert FoldValues(v, p[..6]) == m6;
    FoldFill(v, p, 6, ToDay, w.to.day);
    assert FoldValues(v, p[..7]) == m7;
    assert p[..7] == p;
  }

  lemma FoldFill(values: map<Field, string>, steps: seq<Step>, k: nat, f: Field, n: nat)
    requires k < |steps| && steps[k] == FillField(f, n)
    ensures FoldValues(values, steps[..k + 1]) == FoldValues(values, steps[..k])[f := Numeral(n)]
  {
    assert steps[..k + 1][..k] == steps[..k];
  }

  lemma FoldCity(values: map<Field, string>, steps: seq<Step>, k: nat)
    requires k < |steps| && steps[k] == ChooseCity
    ensures FoldValues(values, steps[..k + 1]) == FoldValues(values, steps[..k])
  {
    assert steps[..k + 1][..k] == steps[..k];
  }
}
