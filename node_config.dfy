/** The custom-type authoring form: a draft descriptor and a "new field" draft held as
    component state, the edits that replace them, and the validation and id
    normalisation applied on save. */
module NodeConfig {
  import opened Wrappers
  import opened Text
  import opened GraphStore

  /** The `initialConfig` prop; every key may be missing. */
  datatype InitialConfig = InitialConfig(
    nodeType: Option<string>,
    backgroundColor: Option<string>,
    borderColor: Option<string>,
    inputs: Option<seq<Port>>,
    outputs: Option<seq<Port>>,
    fields: Option<seq<FieldDesc>>)

  /** The `config` state: the descriptor being authored. */
  datatype Draft = Draft(
    nodeType: string,
    backgroundColor: string,
    borderColor: string,
    inputs: seq<Port>,
    outputs: seq<Port>,
    fields: seq<FieldDesc>,
    fieldValues: map<string, string>)

  /** The `newField` state: the field about to be added. */
  datatype NewField = NewField(fieldType: string, caption: string, options: seq<SelectOption>)

  /** The two keys the option editor writes. */
  datatype OptionKey = ValueKey | LabelKey

  const DefaultBackground: string := "#be87fe"
  const DefaultBorder: string := "#150536"
  const BlankField: NewField := NewField("text", "", [])

  /** `s || d` on a possibly missing string: a missing or empty string gives `d`. */
  function OrElse(s: Option<string>, d: string): string {
    if s.Some? && s.value != "" then s.value else d
  }

  /** The initial `config`: each key from `initialConfig` when it is truthy, else its default. */
  function InitialDraft(init: InitialConfig): (d: Draft)
    ensures init.nodeType.Some? && init.nodeType.value != "" ==> d.nodeType == init.nodeType.value
    ensures init.nodeType.None? || init.nodeType.value == "" ==> d.nodeType == ""
    ensures init.backgroundColor.Some? && init.backgroundColor.value != "" ==> d.backgroundColor == init.backgroundColor.value
    ensures init.backgroundColor.None? || init.backgroundColor.value == "" ==> d.backgroundColor == DefaultBackground
    ensures init.borderColor.Some? && init.borderColor.value != "" ==> d.borderColor == init.borderColor.value
    ensures init.borderColor.None? || init.borderColor.value == "" ==> d.borderColor == DefaultBorder
    ensures d.backgroundColor != "" && d.borderColor != ""
    ensures d.inputs == (if init.inputs.Some? then init.inputs.value else [])
    ensures d.outputs == (if init.outputs.Some? then init.outputs.value else [])
    ensures d.fields == (if init.fields.Some? then init.fields.value else [])
    ensures d.fieldValues == map[]
  {
    Draft(
      OrElse(init.nodeType, ""),
      OrElse(init.backgroundColor, DefaultBackground),
      OrElse(init.borderColor, DefaultBorder),
      init.inputs.GetOr([]),
      init.outputs.GetOr([]),
      init.fields.GetOr([]),
      map[])
  }

  /** The port addInput / addOutput appends: `{id: `${prefix}${n}`, label: `${caption} ${n + 1}`}`
      for a list of length n. */
  function NextPort(ports: seq<Port>, idPrefix: string, captionPrefix: string): Port {
    Port(idPrefix + NatToString(|ports|), captionPrefix + NatToString(|ports| + 1))
  }

  function PortId(p: Port): string { p.id }

  function FieldId(f: FieldDesc): string { f.id }

  /** `xs.filter(x => x.id !== id)`. */
  function WithoutId<T(!new)>(xs: seq<T>, idOf: T -> string, id: string): (r: seq<T>)
    ensures |r| <= |xs|
    ensures (forall i | 0 <= i < |xs| :: idOf(xs[i]) != id) ==> r == xs
  {
    if xs == [] then []
    else
      var last := xs[|xs| - 1];
      WithoutId(xs[..|xs| - 1], idOf, id) + (if idOf(last) != id then [last] else [])
  }

  /** Removal keeps exactly the elements whose id differs. */
  lemma {:induction false} WithoutIdMembers<T(!new)>(xs: seq<T>, idOf: T -> string, id: string)
    ensures forall x :: x in WithoutId(xs, idOf, id) <==> x in xs && idOf(x) != id
  {
    if xs != [] {
      var front := xs[..|xs| - 1];
      WithoutIdMembers(front, idOf, id);
      assert xs == front + [xs[|xs| - 1]];
    }
  }

  /** Removal works element by element, so it keeps the survivors in their order:
      removing from a concatenation is concatenating the removals. */
  lemma {:induction false} WithoutIdConcat<T(!new)>(a: seq<T>, b: seq<T>, idOf: T -> string, id: string)
    ensures WithoutId(a + b, idOf, id) == WithoutId(a, idOf, id) + WithoutId(b, idOf, id)
    decreases |b|
  {
    if b == [] {
      assert a + b == a;
    } else {
      var front, last := b[..|b| - 1], b[|b| - 1];
      var keep := if idOf(last) != id then [last] else [];
      assert (a + b)[..|a + b| - 1] == a + front && (a + b)[|a + b| - 1] == last;
      assert WithoutId(a + b, idOf, id) == WithoutId(a + front, idOf, id) + keep;
      assert WithoutId(b, idOf, id) == WithoutId(front, idOf, id) + keep;
      WithoutIdConcat(a, front, idOf, id);
    }
  }

  /** The descriptor addField appends: `field-${n}` for a list of length n, and options only for a select. */
  function FieldFrom(nf: NewField, index: nat): (f: FieldDesc)
    ensures f.id == "field-" + NatToString(index)
    ensures f.fieldType == nf.fieldType && f.caption == nf.caption
    ensures f.options.Some? <==> nf.fieldType == "select"
    ensures f.options.Some? ==> f.options.value == nf.options
  {
    FieldDesc("field-" + NatToString(index), nf.fieldType, nf.caption,
      if nf.fieldType == "select" then Some(nf.options) else None)
  }

  /** `{...option, [key]: value}` for one of the two keys. */
  function SetOptionKey(o: SelectOption, key: OptionKey, value: string): (r: SelectOption)
    ensures key == ValueKey ==> r.value == value && r.caption == o.caption
    ensures key == LabelKey ==> r.caption == value && r.value == o.value
  {
    match key
    case ValueKey => o.(value := value)
    case LabelKey => o.(caption := value)
  }

  /** `list.map((x, i) => ({...x, id: x.id || `${prefix}${i}`}))` on ports. */
  function FillPortIds(ports: seq<Port>, prefix: string): (r: seq<Port>)
    ensures |r| == |ports|
    ensures forall i | 0 <= i < |ports| :: r[i].caption == ports[i].caption
    ensures forall i | 0 <= i < |ports| && ports[i].id != "" :: r[i].id == ports[i].id
    ensures forall i | 0 <= i < |ports| && ports[i].id == "" :: r[i].id == prefix + NatToString(i)
    ensures forall i | 0 <= i < |ports| :: r[i].id != ""
  {
    seq(|ports|, i requires 0 <= i < |ports| =>
      ports[i].(id := if ports[i].id != "" then ports[i].id else prefix + NatToString(i)))
  }

  /** The same normalisation on field descriptors. */
  function FillFieldIds(fields: seq<FieldDesc>): (r: seq<FieldDesc>)
    ensures |r| == |fields|
    ensures forall i | 0 <= i < |fields| :: r[i].(id := fields[i].id) == fields[i]
    ensures forall i | 0 <= i < |fields| && fields[i].id != "" :: r[i].id == fields[i].id
    ensures forall i | 0 <= i < |fields| && fields[i].id == "" :: r[i].id == "field-" + NatToString(i)
    ensures forall i | 0 <= i < |fields| :: r[i].id != ""
  {
    seq(|fields|, i requires 0 <= i < |fields| =>
      fields[i].(id := if fields[i].id != "" then fields[i].id else "field-" + NatToString(i)))
  }

  /** Filling ids a second time changes nothing: after one pass no id is empty. */
  lemma FillIdsIdempotent(d: Draft)
    ensures FillPortIds(FillPortIds(d.inputs, "input-"), "input-") == FillPortIds(d.inputs, "input-")
    ensures FillPortIds(FillPortIds(d.outputs, "output-"), "output-") == FillPortIds(d.outputs, "output-")
    ensures FillFieldIds(FillFieldIds(d.fields)) == FillFieldIds(d.fields)
  {
    var i1 := FillPortIds(d.inputs, "input-");
    assert forall i | 0 <= i < |i1| :: FillPortIds(i1, "input-")[i] == i1[i];
    var o1 := FillPortIds(d.outputs, "output-");
    assert forall i | 0 <= i < |o1| :: FillPortIds(o1, "output-")[i] == o1[i];
    var f1 := FillFieldIds(d.fields);
    assert forall i | 0 <= i < |f1| :: FillFieldIds(f1)[i] == f1[i];
  }

  /** handleSave: refuse a type name that is empty after trimming; otherwise hand over the draft
      with missing ids filled by position. The name itself is handed over untrimmed. */
  function Save(d: Draft): (r: Option<CustomConfig>)
    ensures r.None? <==> Blank(d.nodeType)
    ensures r.Some? ==>
      && r.value.nodeType == d.nodeType
      && r.value.backgroundColor == d.backgroundColor && r.value.borderColor == d.borderColor
      && r.value.inputs == Some(FillPortIds(d.inputs, "input-"))
      && r.value.outputs == Some(FillPortIds(d.outputs, "output-"))
      && r.value.fields == Some(FillFieldIds(d.fields))
  {
    TrimEmptyIffBlank(d.nodeType);
    if Trim(d.nodeType) == "" then None
    else Some(CustomConfig(d.nodeType, d.backgroundColor, d.borderColor,
      Some(FillPortIds(d.inputs, "input-")), Some(FillPortIds(d.outputs, "output-")), Some(FillFieldIds(d.fields))))
  }

  /** Ids come from the current length, so after a removal the next port can repeat a surviving id:
      add two inputs, remove the first, add one more, and both remaining inputs are `input-1`. */
  lemma InputIdRepeatsAfterRemoval()
    ensures var two := [NextPort([], "input-", "Input ")] + [NextPort([NextPort([], "input-", "Input ")], "input-", "Input ")];
      var one := WithoutId(two, PortId, "input-0");
      var again := one + [NextPort(one, "input-", "Input ")];
      |again| == 2 && again[0].id == again[1].id == "input-1"
  {
    var p0 := NextPort([], "input-", "Input ");
    var p1 := NextPort([p0], "input-", "Input ");
    assert NatToString(0) == "0" && NatToString(1) == "1" && NatToString(2) == "2";
    assert p0.id == "input-0" && p1.id == "input-1";
    var two := [p0] + [p1];
    assert WithoutId([p0], PortId, "input-0") == [];
    assert two[..1] == [p0];
    assert WithoutId(two, PortId, "input-0") == [p1];
  }

  /** The form's state. Every edit replaces `config` or `newField` with a value built from the old one. */
  class NodeConfigModal {
    var config: Draft
    var newField: NewField

    constructor (init: InitialConfig)
      ensures config == InitialDraft(init) && newField == BlankField
    {
      config := InitialDraft(init);
      newField := BlankField;
    }

    /** addInput: append `input-n` / `Input n+1`, n the current number of inputs. */
    method AddInput()
      modifies this`config
      ensures config == old(config).(inputs := old(config.inputs) + [NextPort(old(config.inputs), "input-", "Input ")])
    {
      config := config.(inputs := config.inputs + [NextPort(config.inputs, "input-", "Input ")]);
    }

    /** removeInput(id): drop every input with that id. */
    method RemoveInput(id: string)
      modifies this`config
      ensures config == old(config).(inputs := WithoutId(old(config.inputs), PortId, id))
    {
      config := config.(inputs := WithoutId(config.inputs, PortId, id));
    }

    /** addOutput: append `output-n` / `Output n+1`. */
    method AddOutput()
      modifies this`config
      ensures config == old(config).(outputs := old(config.outputs) + [NextPort(old(config.outputs), "output-", "Output ")])
    {
      config := config.(outputs := config.outputs + [NextPort(config.outputs, "output-", "Output ")]);
    }

    /** removeOutput(id): drop every output with that id. */
    method RemoveOutput(id: string)
      modifies this`config
      ensures config == old(config).(outputs := WithoutId(old(config.outputs), PortId, id))
    {
      config := config.(outputs := WithoutId(config.outputs, PortId, id));
    }

    /** addField: nothing happens while the label is empty; otherwise append the field and reset
        the new-field draft. */
    method AddField()
      modifies this
      ensures old(newField.caption) == "" ==> config == old(config) && newField == old(newField)
      ensures old(newField.caption) != "" ==>
        config == old(config).(fields := old(config.fields) + [FieldFrom(old(newField), |old(config.fields)|)])
        && newField == BlankField
    {
      if newField.caption == "" {
        return;
      }
      var field := FieldFrom(newField, |config.fields|);
      config := config.(fields := config.fields + [field]);
      newField := BlankField;
    }

    /** removeField(id): drop every field with that id. */
    method RemoveField(id: string)
      modifies this`config
      ensures config == old(config).(fields := WithoutId(old(config.fields), FieldId, id))
    {
      config := config.(fields := WithoutId(config.fields, FieldId, id));
    }

    /** addSelectOption: append an empty option. */
    method AddSelectOption()
      modifies this`newField
      ensures newField == old(newField).(options := old(newField.options) + [SelectOption("", "")])
    {
      newField := newField.(options := newField.options + [SelectOption("", "")]);
    }

    /** updateSelectOption(index, key, value): rewrite one key of one option. */
    method UpdateSelectOption(index: nat, key: OptionKey, value: string)
      requires index < |newField.options|
      modifies this`newField
      ensures newField.fieldType == old(newField.fieldType) && newField.caption == old(newField.caption)
      ensures |newField.options| == |old(newField.options)|
      ensures forall i | 0 <= i < |newField.options| && i != index :: newField.options[i] == old(newField.options[i])
      ensures newField.options[index] == SetOptionKey(old(newField.options[index]), key, value)
    {
      var options := newField.options[index := SetOptionKey(newField.options[index], key, value)];
      newField := newField.(options := options);
    }

    /** handleSave: the descriptor handed to `onSave`, or None when the alert fires instead. */
    method HandleSave() returns (saved: Option<CustomConfig>)
      ensures saved == Save(config)
    {
      saved := Save(config);
    }
  }
}
