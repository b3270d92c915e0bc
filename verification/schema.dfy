/**
  The design export format: its schema version, the enumerations the format
  fixes, and the shape of validation errors and results.
 */
module Schema {
  import opened Wrappers
  import opened Json
  import Constraints

  const SchemaVersion: string := "1.0.0"

  /** `ui_layout`: a corner widget or a full-page chat. */
  datatype UiLayout = Corner | Full

  function UiLayoutName(l: UiLayout): string {
    match l
    case Corner => "corner"
    case Full => "full"
  }

  const UiLayoutNames: seq<string> := ["corner", "full"]

  function ParseUiLayout(s: string): (r: Option<UiLayout>)
    ensures r.Some? ==> UiLayoutName(r.value) == s
  {
    if s == "corner" then Some(Corner)
    else if s == "full" then Some(Full)
    else None
  }

  datatype Alignment = AlignLeft | AlignRight | AlignCenter

  function AlignmentName(a: Alignment): string {
    match a
    case AlignLeft => "left"
    case AlignRight => "right"
    case AlignCenter => "center"
  }

  function ParseAlignment(s: string): (r: Option<Alignment>)
    ensures r.Some? ==> AlignmentName(r.value) == s
  {
    if s == "left" then Some(AlignLeft)
    else if s == "right" then Some(AlignRight)
    else if s == "center" then Some(AlignCenter)
    else None
  }

  datatype Animation = Fade | SlideUp | SlideLeft | Scale | Bounce | NoAnimation

  function AnimationName(a: Animation): string {
    match a
    case Fade => "fade"
    case SlideUp => "slideUp"
    case SlideLeft => "slideLeft"
    case Scale => "scale"
    case Bounce => "bounce"
    case NoAnimation => "none"
  }

  function ParseAnimation(s: string): (r: Option<Animation>)
    ensures r.Some? ==> AnimationName(r.value) == s
  {
    if s == "fade" then Some(Fade)
    else if s == "slideUp" then Some(SlideUp)
    else if s == "slideLeft" then Some(SlideLeft)
    else if s == "scale" then Some(Scale)
    else if s == "bounce" then Some(Bounce)
    else if s == "none" then Some(NoAnimation)
    else None
  }

  datatype Shadow = NoShadow | Light | Medium | Heavy

  function ShadowName(s: Shadow): string {
    match s
    case NoShadow => "none"
    case Light => "light"
    case Medium => "medium"
    case Heavy => "heavy"
  }

  function ParseShadow(s: string): (r: Option<Shadow>)
    ensures r.Some? ==> ShadowName(r.value) == s
  {
    if s == "none" then Some(NoShadow)
    else if s == "light" then Some(Light)
    else if s == "medium" then Some(Medium)
    else if s == "heavy" then Some(Heavy)
    else None
  }

  datatype ButtonStyle = Modern | Classic | Minimal | Rounded

  function ButtonStyleName(b: ButtonStyle): string {
    match b
    case Modern => "modern"
    case Classic => "classic"
    case Minimal => "minimal"
    case Rounded => "rounded"
  }

  function ParseButtonStyle(s: string): (r: Option<ButtonStyle>)
    ensures r.Some? ==> ButtonStyleName(r.value) == s
  {
    if s == "modern" then Some(Modern)
    else if s == "classic" then Some(Classic)
    else if s == "minimal" then Some(Minimal)
    else if s == "rounded" then Some(Rounded)
    else None
  }

  /** Each enumeration's names are exactly the allowed list of its constraint-table entry,
      and every name reads back as its own value. */
  lemma EnumsMatchConstraintTable(s: string)
    ensures ParseUiLayout(s).Some? <==> s in UiLayoutNames
    ensures ParseAlignment(s).Some? <==> s in Constraints.BubbleAlignment.allowed
    ensures ParseAnimation(s).Some? <==> s in Constraints.BubbleAnimation.allowed
    ensures ParseShadow(s).Some? <==> s in Constraints.BubbleShadow.allowed
    ensures ParseButtonStyle(s).Some? <==> s in Constraints.InputButtonStyle.allowed
  {
  }

  lemma EnumNamesRoundTrip(l: UiLayout, a: Alignment, m: Animation, h: Shadow, b: ButtonStyle)
    ensures ParseUiLayout(UiLayoutName(l)) == Some(l)
    ensures ParseAlignment(AlignmentName(a)) == Some(a)
    ensures ParseAnimation(AnimationName(m)) == Some(m)
    ensures ParseShadow(ShadowName(h)) == Some(h)
    ensures ParseButtonStyle(ButtonStyleName(b)) == Some(b)
  {
  }

  /** The fields of one design object, as `JSON.parse` leaves them. */
  type Fields = map<string, Value>

  datatype DesignComponents = DesignComponents(header: Fields, bubbles: Fields, input: Fields, footer: Fields)

  /** The responsive object; its `breakpoints` member is kept apart from the four size fields. */
  datatype DesignResponsive = DesignResponsive(sizes: Fields, breakpoints: Fields)

  datatype DesignConfiguration = DesignConfiguration(
    layout: Fields,
    colors: Fields,
    typography: Fields,
    components: DesignComponents,
    advanced: Fields,
    responsive: DesignResponsive)

  datatype DesignExportMetadata = DesignExportMetadata(
    version: string,
    exportedAt: string,
    exportedBy: Option<string>,
    chatbotName: Option<string>,
    themeName: string,
    description: Option<string>,
    tags: Option<seq<string>>,
    preview: Option<string>)

  datatype DesignExportFormat = DesignExportFormat(metadata: DesignExportMetadata, design: DesignConfiguration)

  /** One validation finding; `value` is `Undefined` when the finding carries no value. */
  datatype ValidationError = ValidationError(field: string, message: string, value: Value)

  /** `{ success, errors?, data? }`. */
  datatype ValidationResult = ValidationResult(success: bool, errors: Option<seq<ValidationError>>, data: Option<Value>)

  /** The two shapes the validator produces: success with the data, or failure with at least one error. */
  predicate WellFormedResult(r: ValidationResult) {
    if r.success then r.errors.None? && r.data.Some?
    else r.errors.Some? && |r.errors.value| >= 1 && r.data.None?
  }

  function Failure(errors: seq<ValidationError>): (r: ValidationResult)
    requires |errors| >= 1
    ensures WellFormedResult(r) && !r.success
  {
    ValidationResult(false, Some(errors), None)
  }

  function Success(data: Value): (r: ValidationResult)
    ensures WellFormedResult(r) && r.success
  {
    ValidationResult(true, None, Some(data))
  }
}
