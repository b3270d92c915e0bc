/**
  The chatbot configuration and the design export format, and the three
  conversions between them: `configToExport` (with per-field defaults),
  `exportToConfig` (a projection of the design back to configuration keys) and
  `mergePartialExport` (selective import of key groups into a configuration).
 */
module Transformer {
  import opened Wrappers
  import opened Json
  import opened Schema

  /** How `configToExport` fills a field: `v || "d"`, `v !== false`, or `v || false`. */
  datatype Default = OrString(fallback: string) | NotFalse | OrFalse

  function ApplyDefault(v: Value, d: Default): (r: Value)
    ensures d.OrString? ==> r == (if Truthy(v) then v else Str(d.fallback))
    ensures d.NotFalse? ==> r == Bool(v != Bool(false))
    ensures d.OrFalse? ==> r == (if Truthy(v) then v else Bool(false))
  {
    match d
    case OrString(s) => if Truthy(v) then v else Str(s)
    case NotFalse => Bool(v != Bool(false))
    case OrFalse => if Truthy(v) then v else Bool(false)
  }

  /** The values defaulting keeps: truthy ones, and for `!== false` fields exactly the booleans. */
  predicate Survives(v: Value, d: Default) {
    if d.NotFalse? then v.Bool? else Truthy(v)
  }

  lemma ApplyDefaultKeeps(v: Value, d: Default)
    ensures Survives(v, d) ==> ApplyDefault(v, d) == v
  {
  }

  /** The groups of fields, each read from one place in the configuration and written to one place in the design. */
  datatype Part = Layout | Colors | Typography | Header | Bubbles | Input | Footer | Advanced | Responsive | Breakpoints

  const AllParts: seq<Part> := [Layout, Colors, Typography, Header, Bubbles, Input, Footer, Advanced, Responsive, Breakpoints]

  lemma AllPartsComplete(p: Part)
    ensures p in AllParts
  {
  }

  /** Where a part lives in the configuration: layout fields are top level, the rest are nested objects. */
  function ConfigPart(config: Value, p: Part): Value {
    match p
    case Layout => config
    case Colors => Get(config, "color_scheme")
    case Typography => Get(config, "typography")
    case Header => Get(config, "header_config")
    case Bubbles => Get(config, "bubble_config")
    case Input => Get(config, "input_config")
    case Footer => Get(config, "footer_config")
    case Advanced => Get(config, "animation_config")
    case Responsive => Get(config, "responsive_config")
    case Breakpoints => Get(Get(config, "responsive_config"), "breakpoints")
  }

  /** Where a part lives in the design section of an export. */
  function PartOf(design: DesignConfiguration, p: Part): Fields {
    match p
    case Layout => design.layout
    case Colors => design.colors
    case Typography => design.typography
    case Header => design.components.header
    case Bubbles => design.components.bubbles
    case Input => design.components.input
    case Footer => design.components.footer
    case Advanced => design.advanced
    case Responsive => design.responsive.sizes
    case Breakpoints => design.responsive.breakpoints
  }

  type FieldSpec = seq<(string, Default)>

  /** The fields of each part, in source order, with their defaults. */
  function Spec(p: Part): FieldSpec {
    match p
    case Layout => [
      ("ui_layout", OrString("corner")),
      ("widget_width", OrString("350px")),
      ("widget_height", OrString("500px")),
      ("border_radius", OrString("12px")),
      ("widget_padding", OrString("16px")),
      ("widget_margin", OrString("20px"))]
    case Colors => [
      ("background", OrString("#ffffff")),
      ("header", OrString("#000000")),
      ("botMessage", OrString("#f3f4f6")),
      ("userMessage", OrString("#3b82f6")),
      ("textPrimary", OrString("#111827")),
      ("textSecondary", OrString("#6b7280")),
      ("inputField", OrString("#ffffff")),
      ("inputBorder", OrString("#d1d5db")),
      ("inputText", OrString("#111827")),
      ("buttonPrimary", OrString("#3b82f6")),
      ("buttonSecondary", OrString("#6b7280")),
      ("accent", OrString("#8b5cf6")),
      ("success", OrString("#10b981")),
      ("warning", OrString("#f59e0b")),
      ("error", OrString("#ef4444"))]
    case Typography => [
      ("fontFamily", OrString("Inter, -apple-system, BlinkMacSystemFont, sans-serif")),
      ("headerSize", OrString("18px")),
      ("messageSize", OrString("14px")),
      ("inputSize", OrString("14px")),
      ("headerWeight", OrString("600")),
      ("messageWeight", OrString("400")),
      ("inputWeight", OrString("400"))]
    case Header => [
      ("showHeader", NotFalse),
      ("customTitle", OrString("")),
      ("showLogo", NotFalse),
      ("showOwnerName", OrFalse),
      ("headerHeight", OrString("60px")),
      ("logoSize", OrString("32px"))]
    case Bubbles => [
      ("showTail", NotFalse),
      ("alignment", OrString("left")),
      ("animation", OrString("fade")),
      ("spacing", OrString("8px")),
      ("maxWidth", OrString("80%")),
      ("borderRadius", OrString("18px")),
      ("tailSize", OrString("8px")),
      ("shadow", OrString("light")),
      ("showTimestamp", OrFalse),
      ("showAvatar", OrFalse)]
    case Input => [
      ("placeholder", OrString("Type your message...")),
      ("borderRadius", OrString("20px")),
      ("showMicButton", OrFalse),
      ("showSendButton", NotFalse),
      ("buttonStyle", OrString("modern")),
      ("height", OrString("46px")),
      ("padding", OrString("12px 16px")),
      ("buttonSize", OrString("34px")),
      ("autoFocus", OrFalse),
      ("showCharacterCount", OrFalse),
      ("maxCharacters", OrString("500"))]
    case Footer => [
      ("showPoweredBy", NotFalse),
      ("customBrandingUrl", OrString("")),
      ("customBrandingText", OrString("Powered by ChatBot")),
      ("showCTA", OrFalse),
      ("ctaText", OrString("")),
      ("ctaUrl", OrString(""))]
    case Advanced => [
      ("messageAnimation", OrString("fade")),
      ("typingIndicator", OrFalse),
      ("soundEffects", OrFalse),
      ("hoverEffects", NotFalse),
      ("transitionDuration", OrString("300ms"))]
    case Responsive => [
      ("mobileWidth", OrString("100%")),
      ("mobileHeight", OrString("100%")),
      ("tabletWidth", OrString("600px")),
      ("tabletHeight", OrString("800px"))]
    case Breakpoints => [
      ("mobile", OrString("768px")),
      ("tablet", OrString("1024px"))]
  }

  function Keys(spec: FieldSpec): (ks: seq<string>)
    ensures |ks| == |spec| && forall i :: 0 <= i < |spec| ==> ks[i] == spec[i].0
  {
    seq(|spec|, i requires 0 <= i < |spec| => spec[i].0)
  }

  /** The default of the first field named `k`. */
  function DefaultFor(spec: FieldSpec, k: string): Default
    requires k in Keys(spec)
  {
    if spec[0].0 == k then spec[0].1 else DefaultFor(spec[1..], k)
  }

  /** The fields of one object, each taken from `src` and defaulted. */
  function Build(src: Value, spec: FieldSpec): Fields
    decreases |spec|
  {
    if spec == [] then map[]
    else Build(src, spec[1..])[spec[0].0 := ApplyDefault(Get(src, spec[0].0), spec[0].1)]
  }

  /** A built object has exactly the spec's keys, each holding its source value or the first default given for it. */
  lemma {:induction false} BuildFields(src: Value, spec: FieldSpec)
    ensures forall k :: k in Build(src, spec) <==> k in Keys(spec)
    ensures forall k :: k in Build(src, spec) ==> Build(src, spec)[k] == ApplyDefault(Get(src, k), DefaultFor(spec, k))
    decreases |spec|
  {
    if spec != [] {
      BuildFields(src, spec[1..]);
      assert Keys(spec) == [spec[0].0] + Keys(spec[1..]);
    }
  }

  /** The fields of one object, each copied from `src`. */
  function Project(src: Value, keys: seq<string>): (m: Fields)
    ensures forall k :: k in m <==> k in keys
    ensures forall k :: k in m ==> m[k] == Get(src, k)
  {
    map k | k in keys :: Get(src, k)
  }

  /** The caller-supplied metadata of `configToExport`; absent optionals are `None`. */
  datatype ExportMetadata = ExportMetadata(
    themeName: string,
    description: Option<string>,
    tags: Option<seq<string>>,
    chatbotName: Option<string>,
    exportedBy: Option<string>)

  /** The design whose every part is `f` of that part. */
  function Assemble(f: Part -> Fields): (d: DesignConfiguration)
    ensures forall p :: PartOf(d, p) == f(p)
  {
    DesignConfiguration(
      f(Layout), f(Colors), f(Typography),
      DesignComponents(f(Header), f(Bubbles), f(Input), f(Footer)),
      f(Advanced),
      DesignResponsive(f(Responsive), f(Breakpoints)))
  }

  /** One part of the design `configToExport` builds. */
  function Built(config: Value, p: Part): Fields {
    Build(ConfigPart(config, p), Spec(p))
  }

  lemma BuiltFields(config: Value, p: Part)
    ensures forall k :: k in Built(config, p) <==> k in Keys(Spec(p))
    ensures forall k :: k in Built(config, p) ==> Built(config, p)[k] == ApplyDefault(Get(ConfigPart(config, p), k), DefaultFor(Spec(p), k))
  {
    BuildFields(ConfigPart(config, p), Spec(p));
  }

  /** `configToExport`; the clock reading `exportedAt` is a parameter. */
  function ConfigToExport(config: Value, meta: ExportMetadata, exportedAt: string): (r: DesignExportFormat)
    requires !IsNullish(config)
    ensures r.metadata.version == SchemaVersion && r.metadata.exportedAt == exportedAt
    ensures r.metadata.themeName == meta.themeName && r.metadata.description == meta.description
    ensures r.metadata.tags == meta.tags && r.metadata.chatbotName == meta.chatbotName
    ensures r.metadata.exportedBy == meta.exportedBy && r.metadata.preview.None?
  {
    var design := Assemble(p => Built(config, p));
    DesignExportFormat(
      DesignExportMetadata(SchemaVersion, exportedAt, meta.exportedBy, meta.chatbotName, meta.themeName, meta.description, meta.tags, None),
      design)
  }

  /** Each exported part has exactly the part's keys, each holding its configuration value or the field's default. */
  lemma ConfigToExportDesign(config: Value, meta: ExportMetadata, exportedAt: string)
    requires !IsNullish(config)
    ensures var d := ConfigToExport(config, meta, exportedAt).design;
      && (forall p, k :: k in PartOf(d, p) <==> k in Keys(Spec(p)))
      && (forall p, k :: k in PartOf(d, p) ==>
            PartOf(d, p)[k] == ApplyDefault(Get(ConfigPart(config, p), k), DefaultFor(Spec(p), k)))
  {
    forall p {
      BuiltFields(config, p);
    }
  }

  /** The configuration keys that hold one nested object each, in source order. */
  const NestedKeys: seq<string> := ["color_scheme", "typography", "header_config", "bubble_config", "input_config", "footer_config", "animation_config", "responsive_config"]

  const LayoutKeys := Keys(Spec(Layout))

  /** The configuration whose every part holds the fields `g` gives it: layout fields at top level, the rest nested. */
  function Disassemble(g: Part -> Fields): (r: Value)
    requires forall k :: k in g(Layout) ==> k !in NestedKeys
    requires "breakpoints" !in g(Responsive)
    ensures r.Obj?
    ensures forall k :: k in r.fields <==> k in g(Layout) || k in NestedKeys
  {
    var nested := map[
      "color_scheme" := Obj(g(Colors)),
      "typography" := Obj(g(Typography)),
      "header_config" := Obj(g(Header)),
      "bubble_config" := Obj(g(Bubbles)),
      "input_config" := Obj(g(Input)),
      "footer_config" := Obj(g(Footer)),
      "animation_config" := Obj(g(Advanced)),
      "responsive_config" := Obj(g(Responsive)["breakpoints" := Obj(g(Breakpoints))])];
    Obj(g(Layout) + nested)
  }

  /** Each part of a disassembled configuration holds the fields it was given. */
  lemma DisassembleGet(g: Part -> Fields, p: Part, k: string)
    requires forall k :: k in g(Layout) ==> k !in NestedKeys
    requires "breakpoints" !in g(Responsive)
    requires k in g(p)
    ensures Get(ConfigPart(Disassemble(g), p), k) == g(p)[k]
  {
    var r := Disassemble(g);
    match p
    case Layout => assert k !in NestedKeys;
    case Colors => assert r.fields["color_scheme"] == Obj(g(Colors));
    case Typography => assert r.fields["typography"] == Obj(g(Typography));
    case Header => assert r.fields["header_config"] == Obj(g(Header));
    case Bubbles => assert r.fields["bubble_config"] == Obj(g(Bubbles));
    case Input => assert r.fields["input_config"] == Obj(g(Input));
    case Footer => assert r.fields["footer_config"] == Obj(g(Footer));
    case Advanced => assert r.fields["animation_config"] == Obj(g(Advanced));
    case Responsive => assert r.fields["responsive_config"].fields[k] == g(Responsive)[k];
    case Breakpoints => assert r.fields["responsive_config"].fields["breakpoints"] == Obj(g(Breakpoints));
  }

  /** The fields of a design part that `exportToConfig` names. */
  function Named(design: DesignConfiguration, p: Part): Fields {
    Project(Obj(PartOf(design, p)), Keys(Spec(p)))
  }

  /** `exportToConfig(exportData)`: `exportData.design` projected onto configuration keys. */
  function ExportToConfig(design: DesignConfiguration): (r: Value)
    ensures r.Obj?
    ensures forall k :: k in r.fields <==> k in LayoutKeys || k in NestedKeys
    ensures forall p, k :: k in Keys(Spec(p)) ==> Get(ConfigPart(r, p), k) == Get(Obj(PartOf(design, p)), k)
  {
    LayoutKeysNotNested();
    BreakpointsKeyFree();
    var g := p => Named(design, p);
    forall p, k | k in Keys(Spec(p)) ensures Get(ConfigPart(Disassemble(g), p), k) == Get(Obj(PartOf(design, p)), k) {
      DisassembleGet(g, p, k);
    }
    Disassemble(g)
  }

  lemma LayoutKeysNotNested()
    ensures forall k :: k in LayoutKeys ==> k !in NestedKeys
  {
  }

  /** The responsive part nests the breakpoints under a key none of its own fields uses. */
  lemma BreakpointsKeyFree()
    ensures "breakpoints" !in Keys(Spec(Responsive))
  {
  }

  /** Round trip: exporting and converting back keeps every truthy mapped field, and every boolean `!== false` field. */
  lemma RoundTrip(config: Value, meta: ExportMetadata, exportedAt: string, p: Part, k: string)
    requires !IsNullish(config) && k in Keys(Spec(p))
    requires Survives(Get(ConfigPart(config, p), k), DefaultFor(Spec(p), k))
    ensures Get(ConfigPart(ExportToConfig(ConfigToExport(config, meta, exportedAt).design), p), k) == Get(ConfigPart(config, p), k)
  {
    ConfigToExportDesign(config, meta, exportedAt);
    ApplyDefaultKeeps(Get(ConfigPart(config, p), k), DefaultFor(Spec(p), k));
  }

  // ---------------------------------------------------------------------
  // selective merge

  /** The five option flags; an absent option is `false`. */
  datatype ImportOptions = ImportOptions(colors: bool, typography: bool, layout: bool, components: bool, animations: bool)

  datatype Group = LayoutGroup | ColorsGroup | TypographyGroup | ComponentsGroup | AnimationsGroup

  /** The configuration keys each option overwrites. */
  function GroupKeyList(g: Group): seq<string> {
    match g
    case LayoutGroup => LayoutKeys
    case ColorsGroup => NestedKeys[..1]
    case TypographyGroup => NestedKeys[1..2]
    case ComponentsGroup => NestedKeys[2..6]
    case AnimationsGroup => NestedKeys[6..]
  }

  /** The groups in the order the merge applies them. */
  const AllGroups: seq<Group> := [LayoutGroup, ColorsGroup, TypographyGroup, ComponentsGroup, AnimationsGroup]

  /** Whether the option for group `g` is set. */
  predicate On(options: ImportOptions, g: Group) {
    match g
    case LayoutGroup => options.layout
    case ColorsGroup => options.colors
    case TypographyGroup => options.typography
    case ComponentsGroup => options.components
    case AnimationsGroup => options.animations
  }

  /** Some enabled group among `gs` names key `k`. */
  predicate Hit(options: ImportOptions, gs: seq<Group>, k: string) {
    exists g :: g in gs && On(options, g) && k in GroupKeyList(g)
  }

  /** The keys an option set overwrites. */
  predicate Overwritten(options: ImportOptions, k: string) {
    Hit(options, AllGroups, k)
  }

  /** `{ ...currentConfig }`: an object's own fields; `null` and `undefined` spread to nothing. */
  function Spread(v: Value): Fields
    requires !v.Str? && !v.Arr?
  {
    if v.Obj? then v.fields else map[]
  }

  /** `merged[k] = source[k]` for every `k` of `keys`, in order. */
  function Overwrite(m: Fields, source: Fields, keys: seq<string>): (r: Fields)
    requires forall k :: k in keys ==> k in source
    ensures forall k :: k in keys ==> k in r && r[k] == source[k]
    ensures forall k :: k !in keys ==> (k in r <==> k in m) && (k in m ==> r[k] == m[k])
    decreases |keys|
  {
    if keys == [] then m else Overwrite(m[keys[0] := source[keys[0]]], source, keys[1..])
  }

  /** The `if (options.importX) { ... }` blocks for the groups `gs`, in order. */
  function Apply(m: Fields, source: Fields, options: ImportOptions, gs: seq<Group>): Fields
    requires forall g, k :: k in GroupKeyList(g) ==> k in source
    decreases |gs|
  {
    if gs == [] then m
    else
      var prev := Apply(m, source, options, gs[..|gs| - 1]);
      var g := gs[|gs| - 1];
      if On(options, g) then Overwrite(prev, source, GroupKeyList(g)) else prev
  }

  /** After the blocks for `gs`, a key holds the imported value exactly when an enabled group names it, else its earlier value. */
  lemma {:induction false} ApplyFacts(m: Fields, source: Fields, options: ImportOptions, gs: seq<Group>, k: string)
    requires forall g, k :: k in GroupKeyList(g) ==> k in source
    ensures var r := Apply(m, source, options, gs);
      && (Hit(options, gs, k) ==> k in source)
      && (k in r <==> k in m || Hit(options, gs, k))
      && (k in r ==> r[k] == if Hit(options, gs, k) then source[k] else m[k])
    decreases |gs|
  {
    if gs != [] {
      var init := gs[..|gs| - 1];
      var g := gs[|gs| - 1];
      ApplyFacts(m, source, options, init, k);
      assert gs == init + [g];
      if Hit(options, gs, k) && !(On(options, g) && k in GroupKeyList(g)) {
        var h :| h in gs && On(options, h) && k in GroupKeyList(h);
        assert h in init;
      }
    }
  }

  /** Every key an option names is a key of the converted design. */
  lemma GroupKeysIncoming(design: DesignConfiguration)
    ensures forall g, k :: k in GroupKeyList(g) ==> k in ExportToConfig(design).fields
  {
    forall g, k | k in GroupKeyList(g) ensures k in ExportToConfig(design).fields {
      if g != LayoutGroup {
        assert k in NestedKeys;
      }
    }
  }

  /** `mergePartialExport`: each enabled option copies its key group from `exportToConfig(exportData)`. */
  function MergePartialExport(current: Value, design: DesignConfiguration, options: ImportOptions): Fields
    requires !current.Str? && !current.Arr?
  {
    GroupKeysIncoming(design);
    Apply(Spread(current), ExportToConfig(design).fields, options, AllGroups)
  }

  /** A key of an enabled group takes the imported value. */
  lemma MergeOverwrites(current: Value, design: DesignConfiguration, options: ImportOptions, k: string)
    requires !current.Str? && !current.Arr? && Overwritten(options, k)
    ensures var r := MergePartialExport(current, design, options);
      var incoming := ExportToConfig(design).fields;
      k in r && k in incoming && r[k] == incoming[k]
  {
    GroupKeysIncoming(design);
    ApplyFacts(Spread(current), ExportToConfig(design).fields, options, AllGroups, k);
  }

  /** A key no enabled group names keeps its current value, and a missing one stays missing. */
  lemma MergeKeeps(current: Value, design: DesignConfiguration, options: ImportOptions, k: string)
    requires !current.Str? && !current.Arr? && !Overwritten(options, k)
    ensures var r := MergePartialExport(current, design, options);
      (k in r <==> k in Spread(current)) && (k in r ==> r[k] == Spread(current)[k])
  {
    GroupKeysIncoming(design);
    ApplyFacts(Spread(current), ExportToConfig(design).fields, options, AllGroups, k);
  }

  /** With every option off, the merge returns the current configuration unchanged. */
  lemma MergeNothing(current: Value, design: DesignConfiguration)
    requires current.Obj?
    ensures MergePartialExport(current, design, ImportOptions(false, false, false, false, false)) == current.fields
  {
    var r := MergePartialExport(current, design, ImportOptions(false, false, false, false, false));
    forall k ensures (k in r <==> k in current.fields) && (k in r ==> r[k] == current.fields[k]) {
      MergeKeeps(current, design, ImportOptions(false, false, false, false, false), k);
    }
  }

  /** The animations option replaces both the animation and the responsive configuration. */
  lemma AnimationsOverwriteBoth(current: Value, design: DesignConfiguration, options: ImportOptions)
    requires !current.Str? && !current.Arr? && options.animations
    ensures var r := MergePartialExport(current, design, options);
      var incoming := ExportToConfig(design).fields;
      && "animation_config" in r && r["animation_config"] == incoming["animation_config"]
      && "responsive_config" in r && r["responsive_config"] == incoming["responsive_config"]
  {
    assert Overwritten(options, "animation_config") by {
      assert AnimationsGroup in AllGroups && "animation_config" == GroupKeyList(AnimationsGroup)[0];
    }
    assert Overwritten(options, "responsive_config") by {
      assert AnimationsGroup in AllGroups && "responsive_config" == GroupKeyList(AnimationsGroup)[1];
    }
    MergeOverwrites(current, design, options, "animation_config");
    MergeOverwrites(current, design, options, "responsive_config");
  }
}
