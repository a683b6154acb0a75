/**
 * The form-field configuration: input kinds and their HTML names, select options, and
 * `InputConfig` with its typed constructors and one-field builders.
 */
module Form {
  import opened Wrappers
  import opened Records

  // ---------------------------------------------------------------- input kinds

  datatype InputType = Text | Password | Number | Search | Date | Time | Checkbox | Radio | Select | Textarea

  /** `#[default]`: a text input. */
  const DefaultInputType: InputType := Text

  predicate IsLowerAscii(s: string) { forall i :: 0 <= i < |s| ==> 'a' <= s[i] <= 'z' }

  /** The HTML `type` name of each kind. */
  function AsStr(t: InputType): (s: string)
    ensures s != [] && IsLowerAscii(s)
  {
    match t
    case Text => "text"
    case Password => "password"
    case Number => "number"
    case Search => "search"
    case Date => "date"
    case Time => "time"
    case Checkbox => "checkbox"
    case Radio => "radio"
    case Select => "select"
    case Textarea => "textarea"
  }

  /** Reading a name back: the inverse of `AsStr`. */
  function ParseInputType(s: string): (r: Option<InputType>)
    ensures r.Some? ==> AsStr(r.value) == s
  {
    if s == "text" then Some(Text)
    else if s == "password" then Some(Password)
    else if s == "number" then Some(Number)
    else if s == "search" then Some(Search)
    else if s == "date" then Some(Date)
    else if s == "time" then Some(Time)
    else if s == "checkbox" then Some(Checkbox)
    else if s == "radio" then Some(Radio)
    else if s == "select" then Some(Select)
    else if s == "textarea" then Some(Textarea)
    else None
  }

  /** Every kind's name reads back as that kind, so distinct kinds have distinct names. */
  lemma AsStrRoundTrip(t: InputType)
    ensures ParseInputType(AsStr(t)) == Some(t)
  {
  }

  lemma AsStrInjective(a: InputType, b: InputType)
    requires AsStr(a) == AsStr(b)
    ensures a == b
  {
    AsStrRoundTrip(a);
    AsStrRoundTrip(b);
  }

  // ---------------------------------------------------------------- select options

  datatype SelectOption = SelectOption(value: string, label_text: string, disabled: bool, selected: bool)
  {
    /** `selected()`: sets its own flag only. */
    function Selected(): (r: SelectOption)
      ensures r.selected
      ensures r.value == value && r.label_text == label_text && r.disabled == disabled
    {
      this.(selected := true)
    }

    /** `disabled()`: sets its own flag only. */
    function Disabled(): (r: SelectOption)
      ensures r.disabled
      ensures r.value == value && r.label_text == label_text && r.selected == selected
    {
      this.(disabled := true)
    }
  }

  /** `SelectOption::new`: value and label, neither flag set. */
  function NewOption(value: string, label_text: string): (o: SelectOption)
    ensures o.value == value && o.label_text == label_text && !o.disabled && !o.selected
  {
    SelectOption(value, label_text, false, false)
  }

  /** The flags commute and each is idempotent. */
  lemma OptionFlagsCommute(o: SelectOption)
    ensures o.Selected().Disabled() == o.Disabled().Selected()
    ensures o.Selected().Selected() == o.Selected() && o.Disabled().Disabled() == o.Disabled()
  {
  }

  // ---------------------------------------------------------------- field configuration

  /** The attributes of an `InputConfig`, one per field. */
  datatype Attr =
    | NameAttr | LabelAttr | InputTypeAttr
    | PlaceholderAttr | HelpTextAttr | DefaultValueAttr
    | RequiredAttr | DisabledAttr | ReadonlyAttr | AutofocusAttr
    | ContainerClassAttr | InputClassAttr | LabelClassAttr | IdAttr
    | MinLengthAttr | MaxLengthAttr | PatternAttr
    | MinAttr | MaxAttr | StepAttr
    | OptionsAttr | CheckedAttr | RowsAttr | ColsAttr | DataAttributesAttr

  datatype InputConfig = InputConfig(
    name: string, label_text: string, input_type: InputType,
    placeholder: Option<string>, help_text: Option<string>, default_value: Option<string>,
    required: bool, disabled: bool, readonly: bool, autofocus: bool,
    container_class: Option<string>, input_class: Option<string>, label_class: Option<string>, id: Option<string>,
    min_length: Option<U32>, max_length: Option<U32>, pattern: Option<string>,
    min: Option<F64>, max: Option<F64>, step: Option<F64>,
    options: Option<seq<SelectOption>>, checked: bool,
    rows: Option<U32>, cols: Option<U32>,
    data_attributes: Option<map<string, string>>)
  {
    /** `required()` */
    function Required(): (r: InputConfig)
      ensures r.required && AgreeOutside(this, r, {RequiredAttr})
    {
      this.(required := true)
    }

    /** `placeholder(text)` */
    function Placeholder(text: string): (r: InputConfig)
      ensures r.placeholder == Some(text) && AgreeOutside(this, r, {PlaceholderAttr})
    {
      this.(placeholder := Some(text))
    }

    /** `help_text(text)` */
    function HelpText(text: string): (r: InputConfig)
      ensures r.help_text == Some(text) && AgreeOutside(this, r, {HelpTextAttr})
    {
      this.(help_text := Some(text))
    }

    /** `default_value(value)` */
    function DefaultValue(value: string): (r: InputConfig)
      ensures r.default_value == Some(value) && AgreeOutside(this, r, {DefaultValueAttr})
    {
      this.(default_value := Some(value))
    }

    /** `disabled()` */
    function Disabled(): (r: InputConfig)
      ensures r.disabled && AgreeOutside(this, r, {DisabledAttr})
    {
      this.(disabled := true)
    }

    /** `readonly()` */
    function Readonly(): (r: InputConfig)
      ensures r.readonly && AgreeOutside(this, r, {ReadonlyAttr})
    {
      this.(readonly := true)
    }

    /** `autofocus()` */
    function Autofocus(): (r: InputConfig)
      ensures r.autofocus && AgreeOutside(this, r, {AutofocusAttr})
    {
      this.(autofocus := true)
    }

    /** `class(c)`: the class of the input element. */
    function Class(c: string): (r: InputConfig)
      ensures r.input_class == Some(c) && AgreeOutside(this, r, {InputClassAttr})
    {
      this.(input_class := Some(c))
    }

    /** `container_class(c)` */
    function ContainerClass(c: string): (r: InputConfig)
      ensures r.container_class == Some(c) && AgreeOutside(this, r, {ContainerClassAttr})
    {
      this.(container_class := Some(c))
    }

    /** `label_class(c)` */
    function LabelClass(c: string): (r: InputConfig)
      ensures r.label_class == Some(c) && AgreeOutside(this, r, {LabelClassAttr})
    {
      this.(label_class := Some(c))
    }

    /** `min_length(n)` */
    function MinLength(n: U32): (r: InputConfig)
      ensures r.min_length == Some(n) && AgreeOutside(this, r, {MinLengthAttr})
    {
      this.(min_length := Some(n))
    }

    /** `max_length(n)` */
    function MaxLength(n: U32): (r: InputConfig)
      ensures r.max_length == Some(n) && AgreeOutside(this, r, {MaxLengthAttr})
    {
      this.(max_length := Some(n))
    }

    /** `pattern(p)` */
    function Pattern(p: string): (r: InputConfig)
      ensures r.pattern == Some(p) && AgreeOutside(this, r, {PatternAttr})
    {
      this.(pattern := Some(p))
    }

    /** `min(x)` */
    function Min(x: F64): (r: InputConfig)
      ensures r.min == Some(x) && AgreeOutside(this, r, {MinAttr})
    {
      this.(min := Some(x))
    }

    /** `max(x)` */
    function Max(x: F64): (r: InputConfig)
      ensures r.max == Some(x) && AgreeOutside(this, r, {MaxAttr})
    {
      this.(max := Some(x))
    }

    /** `step(x)` */
    function Step(x: F64): (r: InputConfig)
      ensures r.step == Some(x) && AgreeOutside(this, r, {StepAttr})
    {
      this.(step := Some(x))
    }

    /** `rows(n)` */
    function Rows(n: U32): (r: InputConfig)
      ensures r.rows == Some(n) && AgreeOutside(this, r, {RowsAttr})
    {
      this.(rows := Some(n))
    }

    /** `cols(n)` */
    function Cols(n: U32): (r: InputConfig)
      ensures r.cols == Some(n) && AgreeOutside(this, r, {ColsAttr})
    {
      this.(cols := Some(n))
    }

    /** `checked()` */
    function Checked(): (r: InputConfig)
      ensures r.checked && AgreeOutside(this, r, {CheckedAttr})
    {
      this.(checked := true)
    }

    /** `get_id()`: the explicit id when there is one, else the name. */
    function GetId(): (s: string)
      ensures id.None? ==> s == name
      ensures id.Some? ==> s == id.value
    {
      if id.Some? then id.value else name
    }
  }

  /** `a` and `b` hold the same value for attribute `f`. */
  predicate SameAt(a: InputConfig, b: InputConfig, f: Attr) {
    match f
    case NameAttr => a.name == b.name
    case LabelAttr => a.label_text == b.label_text
    case InputTypeAttr => a.input_type == b.input_type
    case PlaceholderAttr => a.placeholder == b.placeholder
    case HelpTextAttr => a.help_text == b.help_text
    case DefaultValueAttr => a.default_value == b.default_value
    case RequiredAttr => a.required == b.required
    case DisabledAttr => a.disabled == b.disabled
    case ReadonlyAttr => a.readonly == b.readonly
    case AutofocusAttr => a.autofocus == b.autofocus
    case ContainerClassAttr => a.container_class == b.container_class
    case InputClassAttr => a.input_class == b.input_class
    case LabelClassAttr => a.label_class == b.label_class
    case IdAttr => a.id == b.id
    case MinLengthAttr => a.min_length == b.min_length
    case MaxLengthAttr => a.max_length == b.max_length
    case PatternAttr => a.pattern == b.pattern
    case MinAttr => a.min == b.min
    case MaxAttr => a.max == b.max
    case StepAttr => a.step == b.step
    case OptionsAttr => a.options == b.options
    case CheckedAttr => a.checked == b.checked
    case RowsAttr => a.rows == b.rows
    case ColsAttr => a.cols == b.cols
    case DataAttributesAttr => a.data_attributes == b.data_attributes
  }

  /** `a` and `b` differ at most in the attributes `fs`. */
  predicate AgreeOutside(a: InputConfig, b: InputConfig, fs: set<Attr>) {
    forall f: Attr :: f !in fs ==> SameAt(a, b, f)
  }

  /** `InputConfig::default()`: empty strings, `Text`, every flag false, every option absent. */
  function Default(): (c: InputConfig)
    ensures c.name == "" && c.label_text == "" && c.input_type == DefaultInputType
    ensures !c.required && !c.disabled && !c.readonly && !c.autofocus && !c.checked
    ensures c.placeholder.None? && c.help_text.None? && c.default_value.None? && c.id.None?
    ensures c.container_class.None? && c.input_class.None? && c.label_class.None?
    ensures c.min_length.None? && c.max_length.None? && c.pattern.None?
    ensures c.min.None? && c.max.None? && c.step.None?
    ensures c.options.None? && c.rows.None? && c.cols.None? && c.data_attributes.None?
  {
    InputConfig("", "", Text, None, None, None, false, false, false, false, None, None, None, None,
                None, None, None, None, None, None, None, false, None, None, None)
  }

  /** The shared shape of the typed constructors: name, label and kind over the defaults. */
  function Typed(name: string, label_text: string, t: InputType): (c: InputConfig)
    ensures c.name == name && c.label_text == label_text && c.input_type == t
    ensures AgreeOutside(Default(), c, {NameAttr, LabelAttr, InputTypeAttr})
  {
    Default().(name := name, label_text := label_text, input_type := t)
  }

  /** `InputConfig::text` */
  function TextConfig(name: string, label_text: string): (c: InputConfig)
    ensures c == Typed(name, label_text, Text)
  {
    InputConfig(name, label_text, Text, None, None, None, false, false, false, false, None, None, None, None,
                None, None, None, None, None, None, None, false, None, None, None)
  }

  /** `InputConfig::password` */
  function PasswordConfig(name: string, label_text: string): (c: InputConfig)
    ensures c == Typed(name, label_text, Password)
  {
    InputConfig(name, label_text, Password, None, None, None, false, false, false, false, None, None, None, None,
                None, None, None, None, None, None, None, false, None, None, None)
  }

  /** `InputConfig::number` */
  function NumberConfig(name: string, label_text: string): (c: InputConfig)
    ensures c == Typed(name, label_text, Number)
  {
    InputConfig(name, label_text, Number, None, None, None, false, false, false, false, None, None, None, None,
                None, None, None, None, None, None, None, false, None, None, None)
  }

  /** `InputConfig::select` */
  function SelectConfig(name: string, label_text: string): (c: InputConfig)
    ensures c == Typed(name, label_text, Select)
  {
    InputConfig(name, label_text, Select, None, None, None, false, false, false, false, None, None, None, None,
                None, None, None, None, None, None, None, false, None, None, None)
  }

  /** `InputConfig::search` */
  function SearchConfig(name: string, label_text: string): (c: InputConfig)
    ensures c == Typed(name, label_text, Search)
  {
    InputConfig(name, label_text, Search, None, None, None, false, false, false, false, None, None, None, None,
                None, None, None, None, None, None, None, false, None, None, None)
  }

  /** `InputConfig::date` */
  function DateConfig(name: string, label_text: string): (c: InputConfig)
    ensures c == Typed(name, label_text, Date)
  {
    InputConfig(name, label_text, Date, None, None, None, false, false, false, false, None, None, None, None,
                None, None, None, None, None, None, None, false, None, None, None)
  }

  /** `InputConfig::time` */
  function TimeConfig(name: string, label_text: string): (c: InputConfig)
    ensures c == Typed(name, label_text, Time)
  {
    InputConfig(name, label_text, Time, None, None, None, false, false, false, false, None, None, None, None,
                None, None, None, None, None, None, None, false, None, None, None)
  }

  /** `InputConfig::checkbox` */
  function CheckboxConfig(name: string, label_text: string): (c: InputConfig)
    ensures c == Typed(name, label_text, Checkbox)
  {
    InputConfig(name, label_text, Checkbox, None, None, None, false, false, false, false, None, None, None, None,
                None, None, None, None, None, None, None, false, None, None, None)
  }

  /** `InputConfig::radio` */
  function RadioConfig(name: string, label_text: string): (c: InputConfig)
    ensures c == Typed(name, label_text, Radio)
  {
    InputConfig(name, label_text, Radio, None, None, None, false, false, false, false, None, None, None, None,
                None, None, None, None, None, None, None, false, None, None, None)
  }

  /** `InputConfig::textarea` */
  function TextareaConfig(name: string, label_text: string): (c: InputConfig)
    ensures c == Typed(name, label_text, Textarea)
  {
    InputConfig(name, label_text, Textarea, None, None, None, false, false, false, false, None, None, None, None,
                None, None, None, None, None, None, None, false, None, None, None)
  }

  /** The flag builders are idempotent. */
  lemma FlagBuildersIdempotent(c: InputConfig)
    ensures c.Required().Required() == c.Required()
    ensures c.Disabled().Disabled() == c.Disabled()
    ensures c.Readonly().Readonly() == c.Readonly()
    ensures c.Autofocus().Autofocus() == c.Autofocus()
    ensures c.Checked().Checked() == c.Checked()
  {
  }

  /** One builder call in a chain. */
  datatype Step =
    | SetRequired | SetPlaceholder(text: string) | SetHelpText(text: string) | SetDefaultValue(text: string)
    | SetDisabled | SetReadonly | SetAutofocus
    | SetClass(text: string) | SetContainerClass(text: string) | SetLabelClass(text: string)
    | SetMinLength(n: U32) | SetMaxLength(n: U32) | SetPattern(text: string)
    | SetMin(x: F64) | SetMax(x: F64) | SetStep(x: F64)
    | SetRows(n: U32) | SetCols(n: U32) | SetChecked

  function Apply(c: InputConfig, s: Step): InputConfig {
    match s
    case SetRequired => c.Required()
    case SetPlaceholder(t) => c.Placeholder(t)
    case SetHelpText(t) => c.HelpText(t)
    case SetDefaultValue(t) => c.DefaultValue(t)
    case SetDisabled => c.Disabled()
    case SetReadonly => c.Readonly()
    case SetAutofocus => c.Autofocus()
    case SetClass(t) => c.Class(t)
    case SetContainerClass(t) => c.ContainerClass(t)
    case SetLabelClass(t) => c.LabelClass(t)
    case SetMinLength(n) => c.MinLength(n)
    case SetMaxLength(n) => c.MaxLength(n)
    case SetPattern(t) => c.Pattern(t)
    case SetMin(x) => c.Min(x)
    case SetMax(x) => c.Max(x)
    case SetStep(x) => c.Step(x)
    case SetRows(n) => c.Rows(n)
    case SetCols(n) => c.Cols(n)
    case SetChecked => c.Checked()
  }

  /** A builder chain applied left to right. */
  function Build(c: InputConfig, steps: seq<Step>): InputConfig
    decreases |steps|
  {
    if steps == [] then c else Build(Apply(c, steps[0]), steps[1..])
  }

  /** One builder call keeps the name, the label, the kind, the id, the options and the data attributes. */
  lemma ApplyKeepsIdentity(c: InputConfig, s: Step)
    ensures var r := Apply(c, s);
      && r.name == c.name && r.label_text == c.label_text && r.input_type == c.input_type
      && r.id == c.id && r.options == c.options && r.data_attributes == c.data_attributes
  {
    match s
    case SetRequired =>
    case SetPlaceholder(_) =>
    case SetHelpText(_) =>
    case SetDefaultValue(_) =>
    case SetDisabled =>
    case SetReadonly =>
    case SetAutofocus =>
    case SetClass(_) =>
    case SetContainerClass(_) =>
    case SetLabelClass(_) =>
    case SetMinLength(_) =>
    case SetMaxLength(_) =>
    case SetPattern(_) =>
    case SetMin(_) =>
    case SetMax(_) =>
    case SetStep(_) =>
    case SetRows(_) =>
    case SetCols(_) =>
    case SetChecked =>
  }

  /** No builder touches the name, the label, the kind, the id, the options or the data attributes. */
  lemma {:induction false} BuildKeepsIdentity(c: InputConfig, steps: seq<Step>)
    ensures var r := Build(c, steps);
      && r.name == c.name && r.label_text == c.label_text && r.input_type == c.input_type
      && r.id == c.id && r.options == c.options && r.data_attributes == c.data_attributes
    decreases |steps|
  {
    if steps != [] {
      ApplyKeepsIdentity(c, steps[0]);
      BuildKeepsIdentity(Apply(c, steps[0]), steps[1..]);
    }
  }

  /** No builder sets an id, so every configuration built by a constructor and builders is addressed by its name. */
  lemma BuiltIdIsName(name: string, label_text: string, t: InputType, steps: seq<Step>)
    ensures Build(Typed(name, label_text, t), steps).GetId() == name
  {
    BuildKeepsIdentity(Typed(name, label_text, t), steps);
  }
}
