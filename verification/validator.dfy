/**
  Validation of an imported design document. Every check appends its finding
  to one error list and no check stops the others; the only way the whole
  validation stops early is a JavaScript exception raised in `isInRange`: by
  `String` on an object with its own `toString` key (or an array holding one),
  or by `value.replace` / `value.endsWith` on an array whose text looks like a
  unit value.
 */
module Validator {
  import opened Wrappers
  import opened Text
  import opened Json
  import opened Constraints
  import opened Schema

  type Errors = seq<ValidationError>

  /** Every error is reported at a field whose path starts with `prefix`. */
  predicate Under(es: Errors, prefix: string) {
    forall e :: e in es ==> StartsWith(e.field, prefix)
  }

  lemma UnderAppend(a: Errors, b: Errors, prefix: string)
    requires Under(a, prefix) && Under(b, prefix)
    ensures Under(a + b, prefix)
  {
  }

  /** Errors under a longer path are under its every prefix. */
  lemma UnderExtend(es: Errors, p: string, q: string)
    requires Under(es, p + q)
    ensures Under(es, p)
  {
    forall e | e in es ensures StartsWith(e.field, p) {
      StartsWithTrans(e.field, p, q);
    }
  }

  lemma StartsWithTrans(s: string, p: string, q: string)
    requires StartsWith(s, p + q)
    ensures StartsWith(s, p)
  {
    assert s[..|p|] == (p + q)[..|p|];
  }

  /** Runs one check after another: the first exception wins, otherwise the errors are appended. */
  function Then(a: Outcome<Errors>, b: Outcome<Errors>): (r: Outcome<Errors>)
    ensures r == Returned([]) <==> a == Returned([]) && b == Returned([])
    ensures a.Returned? && b.Returned? ==> r == Returned(a.value + b.value)
  {
    if a.Thrown? then a
    else if b.Thrown? then b
    else
      assert |a.value + b.value| == |a.value| + |b.value|;
      Returned(a.value + b.value)
  }

  /** `isInRange(value, c)` on any value. The first regular expression converts the value with
      `String`, which throws for an unprintable value; a match then calls `value.replace` or
      `value.endsWith`, which only strings have. */
  function RangeCheck(v: Value, c: RangeConstraint): (r: Outcome<bool>)
    ensures v.Str? ==> r == Returned(InRange(v.s, c))
    ensures !v.Str? && !v.Arr? ==> r == (if v.Obj? && "toString" in v.fields then Thrown(NoPrimitive) else Returned(false))
    ensures !v.Str? ==> r != Returned(true)
    ensures r.Thrown? ==> v.Arr? || Unprintable(v)
  {
    match ToString(v)
    case Thrown(m) =>
      ToStringThrowsIff(v);
      Thrown(m)
    case Returned(t) =>
      if v.Str? then Returned(InRange(v.s, c))
      else if !v.Arr? then
        ToStringScalarEnd(v);
        assert t[|t| - 1] !in "x%s";
        Returned(false)
      else if IsPixelText(t) || IsPercentText(t) then Thrown("value.replace is not a function")
      else if IsTimeText(t) then Thrown("value.endsWith is not a function")
      else Returned(false)
  }

  /** The kinds of field check the validator applies. */
  datatype Rule =
    | BoolField                              // typeof must be "boolean"
    | StringField(message: string)           // typeof must be "string"
    | NonEmptyString(message: string)        // truthy and a string
    | OneOf(names: seq<string>, message: string)  // truthy and one of `names`
    | RequiredString(range: RangeConstraint) // present, a string, within range
    | RequiredRange(range: RangeConstraint)  // present and within range
    | RequiredChoice(choice: Choice)         // present and allowed
    | OptionalRange(range: RangeConstraint)  // within range when truthy
    | OptionalChoice(choice: Choice)         // allowed when truthy
    | RequiredColor                          // present, a string, #RRGGBB

  /** The values a rule accepts. */
  predicate Accepts(rule: Rule, v: Value) {
    match rule
    case BoolField => v.Bool?
    case StringField(_) => v.Str?
    case NonEmptyString(_) => v.Str? && v.s != []
    case OneOf(names, _) => v.Str? && v.s != [] && v.s in names
    case RequiredString(c) => v.Str? && v.s != [] && InRange(v.s, c)
    case RequiredRange(c) => v.Str? && v.s != [] && InRange(v.s, c)
    case RequiredChoice(c) => v.Str? && v.s != [] && v.s in c.allowed
    case OptionalRange(c) => !Truthy(v) || (v.Str? && InRange(v.s, c))
    case OptionalChoice(c) => !Truthy(v) || (v.Str? && v.s in c.allowed)
    case RequiredColor => v.Str? && IsValidColor(v.s)
  }

  function BetweenMessage(name: string, c: RangeConstraint): string {
    name + " must be between " + c.min + " and " + c.max
  }

  function OneOfMessage(name: string, c: Choice): string {
    name + " must be one of: " + Join(c.allowed, ", ")
  }

  /** A single finding, or none. */
  function Report(bad: bool, e: ValidationError): Errors {
    if bad then [e] else []
  }

  /** The rules that report a missing value as `Missing <name>` (or `Missing color: <name>`). */
  predicate IsRequired(rule: Rule) {
    rule.RequiredString? || rule.RequiredRange? || rule.RequiredChoice? || rule.RequiredColor?
  }

  /** The check of one field `name` (reported as `path.name`) holding `v`. */
  function CheckField(path: string, name: string, rule: Rule, v: Value): (r: Outcome<Errors>)
    ensures r == Returned([]) <==> Accepts(rule, v)
    ensures r.Returned? ==> |r.value| <= 1 && forall e :: e in r.value ==> e.field == path + "." + name
  {
    if IsRequired(rule) then CheckRequired(path + "." + name, name, rule, v)
    else CheckOptional(path + "." + name, name, rule, v)
  }

  /** A required rule: a falsy value is missing, otherwise the rule's own test applies. */
  function CheckRequired(field: string, name: string, rule: Rule, v: Value): (r: Outcome<Errors>)
    requires IsRequired(rule)
    ensures r == Returned([]) <==> Accepts(rule, v)
    ensures r.Returned? ==> |r.value| <= 1 && forall e :: e in r.value ==> e.field == field
  {
    match rule
    case RequiredString(c) =>
      if !Truthy(v) then Returned([ValidationError(field, "Missing " + name, Undefined)])
      else if TypeOf(v) != "string" then Returned([ValidationError(field, name + " must be a string", Undefined)])
      else Returned(Report(!InRange(v.s, c), ValidationError(field, BetweenMessage(name, c), v)))
    case RequiredRange(c) =>
      if !Truthy(v) then Returned([ValidationError(field, "Missing " + name, Undefined)])
      else
        (match RangeCheck(v, c)
         case Thrown(m) => Thrown(m)
         case Returned(ok) => Returned(Report(!ok, ValidationError(field, BetweenMessage(name, c), v))))
    case RequiredChoice(c) =>
      if !Truthy(v) then Returned([ValidationError(field, "Missing " + name, Undefined)])
      else Returned(Report(!(v.Str? && IsAllowed(v.s, c.allowed)), ValidationError(field, OneOfMessage(name, c), v)))
    case RequiredColor =>
      if !Truthy(v) then Returned([ValidationError(field, "Missing color: " + name, Undefined)])
      else if TypeOf(v) != "string" then Returned([ValidationError(field, "Color must be a string", Undefined)])
      else Returned(Report(!IsValidColor(v.s), ValidationError(field, "Invalid color format. Must be hex format (#RRGGBB)", v)))
  }

  /** The remaining rules: a type test, or a test applied only to truthy values. */
  function CheckOptional(field: string, name: string, rule: Rule, v: Value): (r: Outcome<Errors>)
    requires !IsRequired(rule)
    ensures r == Returned([]) <==> Accepts(rule, v)
    ensures r.Returned? ==> |r.value| <= 1 && forall e :: e in r.value ==> e.field == field
  {
    match rule
    case BoolField =>
      Returned(Report(TypeOf(v) != "boolean", ValidationError(field, name + " must be a boolean", Undefined)))
    case StringField(msg) =>
      Returned(Report(TypeOf(v) != "string", ValidationError(field, msg, Undefined)))
    case NonEmptyString(msg) =>
      Returned(Report(!Truthy(v) || TypeOf(v) != "string", ValidationError(field, msg, Undefined)))
    case OneOf(names, msg) =>
      Returned(Report(!Truthy(v) || !(v.Str? && v.s in names), ValidationError(field, msg, Undefined)))
    case OptionalRange(c) =>
      if !Truthy(v) then Returned([])
      else
        (match RangeCheck(v, c)
         case Thrown(m) => Thrown(m)
         case Returned(ok) => Returned(Report(!ok, ValidationError(field, BetweenMessage(name, c), v))))
    case OptionalChoice(c) =>
      Returned(Report(Truthy(v) && !(v.Str? && IsAllowed(v.s, c.allowed)), ValidationError(field, OneOfMessage(name, c), v)))
  }

  /** The checks of a list of fields of `obj`, in list order. */
  function CheckFields(obj: Value, path: string, fields: seq<(string, Rule)>): (r: Outcome<Errors>)
    ensures r == Returned([]) <==> FieldsAccepted(obj, fields)
    ensures r.Returned? ==> |r.value| <= |fields| && Under(r.value, path)
    decreases |fields|
  {
    if fields == [] then Returned([])
    else
      var first := CheckField(path, fields[0].0, fields[0].1, Get(obj, fields[0].0));
      StartsWithTrans(path + "." + fields[0].0, path, "." + fields[0].0);
      Then(first, CheckFields(obj, path, fields[1..]))
  }

  /** Each listed field of `obj` holds a value its rule accepts. */
  predicate FieldsAccepted(obj: Value, fields: seq<(string, Rule)>)
    decreases |fields|
  {
    fields == [] || (Accepts(fields[0].1, Get(obj, fields[0].0)) && FieldsAccepted(obj, fields[1..]))
  }

  lemma {:induction false} FieldsAcceptedEach(obj: Value, fields: seq<(string, Rule)>)
    ensures FieldsAccepted(obj, fields) <==> forall i :: 0 <= i < |fields| ==> Accepts(fields[i].1, Get(obj, fields[i].0))
    decreases |fields|
  {
    if fields != [] {
      FieldsAcceptedEach(obj, fields[1..]);
      assert forall i :: 1 <= i < |fields| ==> fields[i] == fields[1..][i - 1];
    }
  }

  // ---------------------------------------------------------------------
  // the sections

  const LayoutFields: seq<(string, Rule)> := [
    ("ui_layout", OneOf(UiLayoutNames, "ui_layout must be \"corner\" or \"full\"")),
    ("widget_width", RequiredString(WidgetWidth)),
    ("widget_height", RequiredString(WidgetHeight)),
    ("border_radius", RequiredString(BorderRadius)),
    ("widget_padding", RequiredString(WidgetPadding)),
    ("widget_margin", RequiredString(WidgetMargin))
  ]

  const ColorFields: seq<(string, Rule)> := [
    ("background", RequiredColor),
    ("header", RequiredColor),
    ("botMessage", RequiredColor),
    ("userMessage", RequiredColor),
    ("textPrimary", RequiredColor),
    ("textSecondary", RequiredColor),
    ("inputField", RequiredColor),
    ("inputBorder", RequiredColor),
    ("inputText", RequiredColor),
    ("buttonPrimary", RequiredColor),
    ("buttonSecondary", RequiredColor),
    ("accent", RequiredColor),
    ("success", RequiredColor),
    ("warning", RequiredColor),
    ("error", RequiredColor)
  ]

  const TypographyFields: seq<(string, Rule)> := [
    ("fontFamily", NonEmptyString("Font family must be a string")),
    ("headerSize", RequiredRange(HeaderSize)),
    ("messageSize", RequiredRange(MessageSize)),
    ("inputSize", RequiredRange(InputSize)),
    ("headerWeight", RequiredChoice(HeaderWeight)),
    ("messageWeight", RequiredChoice(MessageWeight)),
    ("inputWeight", RequiredChoice(InputWeight))
  ]

  const HeaderFields: seq<(string, Rule)> := [
    ("showHeader", BoolField),
    ("showLogo", BoolField),
    ("showOwnerName", BoolField),
    ("customTitle", StringField("customTitle must be a string")),
    ("headerHeight", OptionalRange(HeaderHeight)),
    ("logoSize", OptionalRange(LogoSize))
  ]

  const BubbleFields: seq<(string, Rule)> := [
    ("showTail", BoolField),
    ("showTimestamp", BoolField),
    ("showAvatar", BoolField),
    ("alignment", OptionalChoice(BubbleAlignment)),
    ("animation", OptionalChoice(BubbleAnimation)),
    ("shadow", OptionalChoice(BubbleShadow)),
    ("spacing", OptionalRange(BubbleSpacing)),
    ("maxWidth", OptionalRange(BubbleMaxWidth)),
    ("borderRadius", OptionalRange(BubbleBorderRadius)),
    ("tailSize", OptionalRange(BubbleTailSize))
  ]

  const InputFields: seq<(string, Rule)> := [
    ("showMicButton", BoolField),
    ("showSendButton", BoolField),
    ("autoFocus", BoolField),
    ("showCharacterCount", BoolField),
    ("placeholder", StringField("placeholder must be a string")),
    ("buttonStyle", OptionalChoice(InputButtonStyle)),
    ("height", OptionalRange(InputHeight)),
    ("buttonSize", OptionalRange(InputButtonSize))
  ]

  const FooterFields: seq<(string, Rule)> := [
    ("showPoweredBy", BoolField),
    ("showCTA", BoolField),
    ("customBrandingUrl", StringField("customBrandingUrl must be a string")),
    ("customBrandingText", StringField("customBrandingText must be a string")),
    ("ctaText", StringField("ctaText must be a string")),
    ("ctaUrl", StringField("ctaUrl must be a string"))
  ]

  const AdvancedFields: seq<(string, Rule)> := [
    ("typingIndicator", BoolField),
    ("soundEffects", BoolField),
    ("hoverEffects", BoolField),
    ("messageAnimation", StringField("messageAnimation must be a string")),
    ("transitionDuration", OptionalRange(TransitionDuration))
  ]

  const ResponsiveFields: seq<(string, Rule)> := [
    ("mobileWidth", StringField("mobileWidth must be a string")),
    ("mobileHeight", StringField("mobileHeight must be a string")),
    ("tabletWidth", StringField("tabletWidth must be a string")),
    ("tabletHeight", StringField("tabletHeight must be a string"))
  ]

  const BreakpointFields: seq<(string, Rule)> := [
    ("mobile", StringField("mobile breakpoint must be a string")),
    ("tablet", StringField("tablet breakpoint must be a string"))
  ]

  /** `if (!parent[key]) missing else check(parent[key])`: a falsy section is one error and no sub-checks. */
  function Section(parent: Value, key: string, path: string, missing: string, fields: seq<(string, Rule)>): (r: Outcome<Errors>)
    ensures !Truthy(Get(parent, key)) ==> r == Returned([ValidationError(path, missing, Undefined)])
    ensures r == Returned([]) <==> Truthy(Get(parent, key)) && FieldsAccepted(Get(parent, key), fields)
    ensures r.Returned? ==> Under(r.value, path)
  {
    var v := Get(parent, key);
    if !Truthy(v) then Returned([ValidationError(path, missing, Undefined)])
    else
      CheckFields(v, path, fields)
  }

  predicate SectionAccepted(parent: Value, key: string, fields: seq<(string, Rule)>) {
    Truthy(Get(parent, key)) && FieldsAccepted(Get(parent, key), fields)
  }

  /** Field paths of the design section and of its two nested sections. */
  const DesignKey := "design"
  const DesignPath := DesignKey + "."
  const ComponentsPath := DesignPath + "components"
  const ResponsivePath := DesignPath + "responsive"

  /** `validateComponents`: header, bubbles, input and footer, each checked whatever the others hold. */
  function ComponentErrors(components: Value): (r: Outcome<Errors>)
    ensures r == Returned([]) <==> ComponentsAccepted(components)
  {
    var p := ComponentsPath;
    Then(Section(components, "header", p + ".header", "Missing header configuration", HeaderFields),
    Then(Section(components, "bubbles", p + ".bubbles", "Missing bubbles configuration", BubbleFields),
    Then(Section(components, "input", p + ".input", "Missing input configuration", InputFields),
         Section(components, "footer", p + ".footer", "Missing footer configuration", FooterFields))))
  }

  predicate ComponentsAccepted(components: Value) {
    && SectionAccepted(components, "header", HeaderFields)
    && SectionAccepted(components, "bubbles", BubbleFields)
    && SectionAccepted(components, "input", InputFields)
    && SectionAccepted(components, "footer", FooterFields)
  }

  /** `validateResponsive`: the four sizes, then the breakpoints object. */
  function ResponsiveErrors(responsive: Value): (r: Outcome<Errors>)
    ensures r == Returned([]) <==> ResponsiveAccepted(responsive)
  {
    var p := ResponsivePath;
    Then(CheckFields(responsive, p, ResponsiveFields),
         Section(responsive, "breakpoints", p + ".breakpoints", "Missing breakpoints", BreakpointFields))
  }

  predicate ResponsiveAccepted(responsive: Value) {
    FieldsAccepted(responsive, ResponsiveFields) && SectionAccepted(responsive, "breakpoints", BreakpointFields)
  }

  /** `if (!design[key]) missing else check(design[key])` for sections with their own check function. */
  function Nested(parent: Value, key: string, path: string, missing: string, check: Outcome<Errors>): (r: Outcome<Errors>)
    ensures !Truthy(Get(parent, key)) ==> r == Returned([ValidationError(path, missing, Undefined)])
    ensures Truthy(Get(parent, key)) ==> r == check
    ensures check.Returned? && Under(check.value, path) && r.Returned? ==> Under(r.value, path)
  {
    if !Truthy(Get(parent, key)) then Returned([ValidationError(path, missing, Undefined)]) else check
  }

  /** `validateDesign`: the six sections in order, none of them skipped because another failed. */
  function DesignErrors(design: Value): (r: Outcome<Errors>)
    ensures r == Returned([]) <==> DesignAccepted(design)
  {
    Then(StyleErrors(design), BehaviourErrors(design))
  }

  /** Layout, colours and typography. */
  function StyleErrors(design: Value): (r: Outcome<Errors>)
    ensures r == Returned([]) <==> StyleAccepted(design)
  {
    var p := DesignPath;
    Then(Section(design, "layout", p + "layout", "Missing layout configuration", LayoutFields),
    Then(Section(design, "colors", p + "colors", "Missing colors configuration", ColorFields),
         Section(design, "typography", p + "typography", "Missing typography configuration", TypographyFields)))
  }

  /** Components, advanced settings and responsive sizes. */
  function BehaviourErrors(design: Value): (r: Outcome<Errors>)
    ensures r == Returned([]) <==> BehaviourAccepted(design)
  {
    var p := DesignPath;
    Then(Nested(design, "components", p + "components", "Missing components configuration", ComponentErrors(Get(design, "components"))),
    Then(Section(design, "advanced", p + "advanced", "Missing advanced configuration", AdvancedFields),
         Nested(design, "responsive", p + "responsive", "Missing responsive configuration", ResponsiveErrors(Get(design, "responsive")))))
  }

  predicate StyleAccepted(design: Value) {
    && SectionAccepted(design, "layout", LayoutFields)
    && SectionAccepted(design, "colors", ColorFields)
    && SectionAccepted(design, "typography", TypographyFields)
  }

  predicate BehaviourAccepted(design: Value) {
    && Truthy(Get(design, "components")) && ComponentsAccepted(Get(design, "components"))
    && SectionAccepted(design, "advanced", AdvancedFields)
    && Truthy(Get(design, "responsive")) && ResponsiveAccepted(Get(design, "responsive"))
  }

  predicate DesignAccepted(design: Value) {
    StyleAccepted(design) && BehaviourAccepted(design)
  }

  // ---------------------------------------------------------------------
  // where the errors of a section are reported

  /** An outcome whose errors, if it returned, are all under `prefix`. */
  predicate ReportsUnder(o: Outcome<Errors>, prefix: string) {
    o.Returned? ==> Under(o.value, prefix)
  }

  lemma ThenUnder(a: Outcome<Errors>, b: Outcome<Errors>, prefix: string)
    requires ReportsUnder(a, prefix) && ReportsUnder(b, prefix)
    ensures ReportsUnder(Then(a, b), prefix)
  {
    if a.Returned? && b.Returned? {
      UnderAppend(a.value, b.value, prefix);
    }
  }

  lemma WeakenUnder(o: Outcome<Errors>, p: string, q: string)
    requires ReportsUnder(o, p + q)
    ensures ReportsUnder(o, p)
  {
    if o.Returned? {
      UnderExtend(o.value, p, q);
    }
  }

  lemma SectionUnder(parent: Value, key: string, p: string, q: string, missing: string, fields: seq<(string, Rule)>)
    ensures ReportsUnder(Section(parent, key, p + q, missing, fields), p)
  {
    WeakenUnder(Section(parent, key, p + q, missing, fields), p, q);
  }

  /** Component errors are reported under `design.components`. */
  lemma ComponentErrorsUnder(components: Value)
    ensures ReportsUnder(ComponentErrors(components), ComponentsPath)
  {
    var p := ComponentsPath;
    var h := Section(components, "header", p + ".header", "Missing header configuration", HeaderFields);
    var b := Section(components, "bubbles", p + ".bubbles", "Missing bubbles configuration", BubbleFields);
    var i := Section(components, "input", p + ".input", "Missing input configuration", InputFields);
    var f := Section(components, "footer", p + ".footer", "Missing footer configuration", FooterFields);
    SectionUnder(components, "header", p, ".header", "Missing header configuration", HeaderFields);
    SectionUnder(components, "bubbles", p, ".bubbles", "Missing bubbles configuration", BubbleFields);
    SectionUnder(components, "input", p, ".input", "Missing input configuration", InputFields);
    SectionUnder(components, "footer", p, ".footer", "Missing footer configuration", FooterFields);
    ThenUnder(i, f, p);
    ThenUnder(b, Then(i, f), p);
    ThenUnder(h, Then(b, Then(i, f)), p);
  }

  /** Responsive errors are reported under `design.responsive`. */
  lemma ResponsiveErrorsUnder(responsive: Value)
    ensures ReportsUnder(ResponsiveErrors(responsive), ResponsivePath)
  {
    var p := ResponsivePath;
    SectionUnder(responsive, "breakpoints", p, ".breakpoints", "Missing breakpoints", BreakpointFields);
    ThenUnder(CheckFields(responsive, p, ResponsiveFields),
              Section(responsive, "breakpoints", p + ".breakpoints", "Missing breakpoints", BreakpointFields), p);
  }

  lemma NestedUnder(parent: Value, key: string, p: string, q: string, missing: string, check: Outcome<Errors>)
    requires ReportsUnder(check, p + q)
    ensures ReportsUnder(Nested(parent, key, p + q, missing, check), p)
  {
    WeakenUnder(Nested(parent, key, p + q, missing, check), p, q);
  }

  lemma StyleErrorsUnder(design: Value)
    ensures ReportsUnder(StyleErrors(design), DesignPath)
  {
    var p := DesignPath;
    var l := Section(design, "layout", p + "layout", "Missing layout configuration", LayoutFields);
    var c := Section(design, "colors", p + "colors", "Missing colors configuration", ColorFields);
    var t := Section(design, "typography", p + "typography", "Missing typography configuration", TypographyFields);
    SectionUnder(design, "layout", p, "layout", "Missing layout configuration", LayoutFields);
    SectionUnder(design, "colors", p, "colors", "Missing colors configuration", ColorFields);
    SectionUnder(design, "typography", p, "typography", "Missing typography configuration", TypographyFields);
    ThenUnder(c, t, p);
    ThenUnder(l, Then(c, t), p);
  }

  lemma BehaviourErrorsUnder(design: Value)
    ensures ReportsUnder(BehaviourErrors(design), DesignPath)
  {
    var p := DesignPath;
    var components := Get(design, "components");
    var responsive := Get(design, "responsive");
    ComponentErrorsUnder(components);
    ResponsiveErrorsUnder(responsive);
    var cm := Nested(design, "components", p + "components", "Missing components configuration", ComponentErrors(components));
    var a := Section(design, "advanced", p + "advanced", "Missing advanced configuration", AdvancedFields);
    var r := Nested(design, "responsive", p + "responsive", "Missing responsive configuration", ResponsiveErrors(responsive));
    NestedUnder(design, "components", p, "components", "Missing components configuration", ComponentErrors(components));
    SectionUnder(design, "advanced", p, "advanced", "Missing advanced configuration", AdvancedFields);
    NestedUnder(design, "responsive", p, "responsive", "Missing responsive configuration", ResponsiveErrors(responsive));
    ThenUnder(a, r, p);
    ThenUnder(cm, Then(a, r), p);
  }

  /** Every error of the design section is reported under `design.`. */
  lemma DesignErrorsUnder(design: Value)
    ensures ReportsUnder(DesignErrors(design), DesignPath)
  {
    StyleErrorsUnder(design);
    BehaviourErrorsUnder(design);
    ThenUnder(StyleErrors(design), BehaviourErrors(design), DesignPath);
  }

  // ---------------------------------------------------------------------
  // metadata

  const MetadataKey := "metadata"
  const MetadataPath := MetadataKey + "."

  function MetaError(name: string, message: string): ValidationError {
    ValidationError(MetadataPath + name, message, Undefined)
  }

  /** Only the exact schema version is compatible. */
  predicate IsCompatibleVersion(version: string) {
    version == SchemaVersion
  }

  /** The version check: at most one error, and none exactly for the schema version. */
  function VersionErrors(metadata: Value): (r: Errors)
    ensures r == [] <==> Get(metadata, "version") == Str(SchemaVersion)
    ensures |r| <= 1 && Under(r, MetadataPath)
  {
    var v := Get(metadata, "version");
    if !Truthy(v) then [MetaError("version", "Missing version")]
    else if !v.Str? then [MetaError("version", "Version must be a string")]
    else if !IsCompatibleVersion(v.s) then
      [MetaError("version", "Incompatible version. Expected " + SchemaVersion + ", got " + v.s)]
    else []
  }

  function ExportedAtErrors(metadata: Value): (r: Errors)
    ensures r == [] <==> Get(metadata, "exportedAt").Str? && Get(metadata, "exportedAt").s != []
    ensures |r| <= 1 && Under(r, MetadataPath)
  {
    var v := Get(metadata, "exportedAt");
    if !Truthy(v) then [MetaError("exportedAt", "Missing exportedAt timestamp")]
    else if !v.Str? then [MetaError("exportedAt", "exportedAt must be a string")]
    else []
  }

  function ThemeNameErrors(metadata: Value): (r: Errors)
    ensures r == [] <==> Get(metadata, "themeName").Str? && 1 <= |Get(metadata, "themeName").s| <= 50
    ensures |r| <= 1 && Under(r, MetadataPath)
  {
    var v := Get(metadata, "themeName");
    if !Truthy(v) then [MetaError("themeName", "Missing theme name")]
    else if !v.Str? then [MetaError("themeName", "Theme name must be a string")]
    else if |v.s| < 1 || |v.s| > 50 then [MetaError("themeName", "Theme name must be 1-50 characters")]
    else []
  }

  /** The optional description: absent or falsy is fine, otherwise a string of at most 200 characters. */
  function DescriptionErrors(metadata: Value): (r: Errors)
    ensures r == [] <==> !Truthy(Get(metadata, "description")) || (Get(metadata, "description").Str? && |Get(metadata, "description").s| <= 200)
    ensures |r| <= 1 && Under(r, MetadataPath)
  {
    var v := Get(metadata, "description");
    if Truthy(v) && !v.Str? then [MetaError("description", "Description must be a string")]
    else if Truthy(v) && |v.s| > 200 then [MetaError("description", "Description must be 200 characters or less")]
    else []
  }

  predicate TagAccepted(tag: Value) {
    tag.Str? && |tag.s| <= 20
  }

  /** The error reported for the tag at `index`, if any. */
  function TagError(tag: Value, index: nat): (r: Option<ValidationError>)
    ensures r.None? <==> TagAccepted(tag)
    ensures r.Some? ==> r.value.field == MetadataPath + "tags[" + NatToString(index) + "]"
  {
    var field := "tags[" + NatToString(index) + "]";
    assert MetadataPath + field == MetadataPath + "tags[" + NatToString(index) + "]";
    if !tag.Str? then Some(MetaError(field, "Tag must be a string"))
    else if |tag.s| > 20 then Some(MetaError(field, "Tag must be 20 characters or less"))
    else None
  }

  /** `tags.forEach`: at most one error per tag from `from` on, in index order. */
  function TagItemErrors(tags: seq<Value>, from: nat): (r: Errors)
    requires from <= |tags|
    ensures r == [] <==> forall j :: from <= j < |tags| ==> TagAccepted(tags[j])
    ensures |r| <= |tags| - from
    ensures Under(r, MetadataPath)
    decreases |tags| - from
  {
    if from == |tags| then []
    else
      var rest := TagItemErrors(tags, from + 1);
      match TagError(tags[from], from)
      case Some(e) => [e] + rest
      case None => rest
  }

  /** The optional tags: absent or falsy is fine, otherwise an array of at most five short strings. */
  function TagsErrors(metadata: Value): (r: Errors)
    ensures r == [] <==> TagsAccepted(Get(metadata, "tags"))
    ensures Under(r, MetadataPath)
    ensures |r| <= 5
  {
    var v := Get(metadata, "tags");
    if !Truthy(v) then []
    else if !v.Arr? then [MetaError("tags", "Tags must be an array")]
    else if |v.items| > 5 then [MetaError("tags", "Maximum 5 tags allowed")]
    else TagItemErrors(v.items, 0)
  }

  predicate TagsAccepted(tags: Value) {
    !Truthy(tags) || (tags.Arr? && |tags.items| <= 5 && forall j :: 0 <= j < |tags.items| ==> TagAccepted(tags.items[j]))
  }

  /** `validateMetadata`: every metadata check, each reported independently. */
  function MetadataErrors(metadata: Value): (r: Errors)
    ensures r == [] <==> MetadataAccepted(metadata)
    ensures Under(r, MetadataPath)
    ensures |r| <= 9
  {
    var a := VersionErrors(metadata);
    var b := ExportedAtErrors(metadata);
    var c := ThemeNameErrors(metadata);
    var d := DescriptionErrors(metadata);
    var e := TagsErrors(metadata);
    assert |a + b + c + d + e| == |a| + |b| + |c| + |d| + |e|;
    a + b + c + d + e
  }

  /** What an accepted metadata object holds. */
  predicate MetadataAccepted(metadata: Value) {
    var description := Get(metadata, "description");
    && Get(metadata, "version") == Str(SchemaVersion)
    && Get(metadata, "exportedAt").Str? && Get(metadata, "exportedAt").s != []
    && Get(metadata, "themeName").Str? && 1 <= |Get(metadata, "themeName").s| <= 50
    && (!Truthy(description) || (description.Str? && |description.s| <= 200))
    && TagsAccepted(Get(metadata, "tags"))
  }

  // ---------------------------------------------------------------------
  // the whole document

  const RootError := ValidationError("root", "Invalid JSON: must be an object", Undefined)
  const MissingMetadata := ValidationError("metadata", "Missing metadata section", Undefined)
  const MissingDesign := ValidationError("design", "Missing design section", Undefined)

  /** Errors of the metadata part of a document that is an object. */
  function MetadataPart(json: Value): (r: Errors)
    ensures !Truthy(Get(json, "metadata")) ==> r == [MissingMetadata]
    ensures Truthy(Get(json, "metadata")) ==> r == MetadataErrors(Get(json, "metadata"))
    ensures r == [] <==> Truthy(Get(json, "metadata")) && MetadataAccepted(Get(json, "metadata"))
  {
    var m := Get(json, "metadata");
    if !Truthy(m) then [MissingMetadata] else MetadataErrors(m)
  }

  /** Errors of the design part, or the exception its checks raise. */
  function DesignPart(json: Value): (r: Outcome<Errors>)
    ensures !Truthy(Get(json, "design")) ==> r == Returned([MissingDesign])
    ensures Truthy(Get(json, "design")) ==> r == DesignErrors(Get(json, "design"))
    ensures r == Returned([]) <==> Truthy(Get(json, "design")) && DesignAccepted(Get(json, "design"))
  {
    var d := Get(json, "design");
    if !Truthy(d) then Returned([MissingDesign]) else DesignErrors(d)
  }

  /** `validateDesignImport`. A `Thrown` outcome is the exception the call raises. */
  function ValidateDesignImport(json: Value): (r: Outcome<ValidationResult>)
    ensures r.Returned? ==> WellFormedResult(r.value)
    ensures r.Returned? && r.value.success ==> r.value.data == Some(json)
    ensures !Truthy(json) || TypeOf(json) != "object" ==> r == Returned(Failure([RootError]))
  {
    if !Truthy(json) || TypeOf(json) != "object" then Returned(Failure([RootError]))
    else Collect(json, MetadataPart(json), DesignPart(json))
  }

  /** The result for an object document: the first exception, else every error in order, else success. */
  function Collect(json: Value, meta: Errors, design: Outcome<Errors>): (r: Outcome<ValidationResult>)
    ensures design.Thrown? ==> r == Thrown(design.message)
    ensures design.Returned? && meta == [] && design.value == [] ==> r == Returned(Success(json))
    ensures design.Returned? && (meta != [] || design.value != []) ==> r == Returned(Failure(meta + design.value))
    ensures r.Returned? ==> WellFormedResult(r.value) && (r.value.success ==> r.value.data == Some(json))
  {
    if design.Thrown? then Thrown(design.message)
    else
      var errors := meta + design.value;
      if |errors| > 0 then Returned(Failure(errors)) else Returned(Success(json))
  }

  /** What a document the validator accepts holds. */
  predicate DocumentAccepted(json: Value) {
    && Truthy(json) && TypeOf(json) == "object"
    && Truthy(Get(json, "metadata")) && MetadataAccepted(Get(json, "metadata"))
    && Truthy(Get(json, "design")) && DesignAccepted(Get(json, "design"))
  }

  /** The validator accepts a document exactly when it is an object with an accepted metadata and design section. */
  lemma AcceptedIffSuccess(json: Value)
    ensures DocumentAccepted(json) <==> ValidateDesignImport(json) == Returned(Success(json))
  {
    if DocumentAccepted(json) {
      AcceptedSucceeds(json);
    }
    if ValidateDesignImport(json) == Returned(Success(json)) {
      SuccessIsAccepted(json);
    }
  }

  lemma AcceptedSucceeds(json: Value)
    requires DocumentAccepted(json)
    ensures ValidateDesignImport(json) == Returned(Success(json))
  {
    assert MetadataPart(json) == [] && DesignPart(json) == Returned([]);
  }

  lemma SuccessIsAccepted(json: Value)
    requires ValidateDesignImport(json) == Returned(Success(json))
    ensures DocumentAccepted(json)
  {
  }

  /** Every check runs: a failing result lists the metadata errors first, then the design errors. */
  lemma ErrorsCollectedInOrder(json: Value)
    requires Truthy(json) && TypeOf(json) == "object"
    requires DesignPart(json).Returned?
    requires !DocumentAccepted(json)
    ensures var r := ValidateDesignImport(json);
      r.Returned? && r.value.errors == Some(MetadataPart(json) + DesignPart(json).value)
  {
    assert MetadataPart(json) != [] || DesignPart(json).value != [];
  }

  /** A missing metadata section is one error at `metadata`, followed by the design errors. */
  lemma MissingMetadataReported(json: Value)
    requires Truthy(json) && TypeOf(json) == "object"
    requires !Truthy(Get(json, "metadata"))
    requires DesignPart(json).Returned?
    ensures ValidateDesignImport(json) == Returned(Failure([MissingMetadata] + DesignPart(json).value))
  {
  }

  /** A missing design section is one error at `design`, after the metadata errors. */
  lemma MissingDesignReported(json: Value)
    requires Truthy(json) && TypeOf(json) == "object"
    requires !Truthy(Get(json, "design"))
    ensures ValidateDesignImport(json) == Returned(Failure(MetadataPart(json) + [MissingDesign]))
  {
  }

  /** Every error of the metadata part names a field under `metadata`. */
  lemma MetadataPartUnder(json: Value)
    ensures Under(MetadataPart(json), MetadataKey)
  {
    var m := Get(json, "metadata");
    if Truthy(m) {
      UnderExtend(MetadataErrors(m), MetadataKey, ".");
    }
  }

  /** Every error of the design part names a field under `design`. */
  lemma DesignPartUnder(json: Value)
    ensures ReportsUnder(DesignPart(json), DesignKey)
  {
    var d := Get(json, "design");
    if Truthy(d) {
      DesignErrorsUnder(d);
      if DesignErrors(d).Returned? {
        UnderExtend(DesignErrors(d).value, DesignKey, ".");
      }
    }
  }
}
