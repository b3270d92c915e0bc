/**
  Exporting a design: the export record handed to storage, and the file name
  a theme is downloaded under. Blobs, the DOM, the clipboard and the clock are
  not modelled; the export time is a parameter.
 */
module DesignExport {
  import opened Wrappers
  import opened Text
  import opened Json
  import opened Schema
  import opened Transformer

  /** The metadata the export functions take; it carries no `exportedBy`. */
  datatype ThemeInfo = ThemeInfo(themeName: string, description: Option<string>, tags: Option<seq<string>>, chatbotName: Option<string>)

  /** `getExportData`: `configToExport` with the caller's theme information. */
  function GetExportData(config: Value, info: ThemeInfo, exportedAt: string): (r: DesignExportFormat)
    requires !IsNullish(config)
    ensures r.metadata.version == SchemaVersion && r.metadata.exportedAt == exportedAt
    ensures r.metadata.themeName == info.themeName && r.metadata.description == info.description
    ensures r.metadata.tags == info.tags && r.metadata.chatbotName == info.chatbotName
    ensures r.metadata.exportedBy.None?
  {
    ConfigToExport(config, ExportMetadata(info.themeName, info.description, info.tags, info.chatbotName, None), exportedAt)
  }

  /** The export data round-trips every field whose configuration value survives defaulting. */
  lemma GetExportDataRoundTrip(config: Value, info: ThemeInfo, exportedAt: string, p: Part, k: string)
    requires !IsNullish(config) && k in Keys(Spec(p))
    requires Survives(Get(ConfigPart(config, p), k), DefaultFor(Spec(p), k))
    ensures Get(ConfigPart(ExportToConfig(GetExportData(config, info, exportedAt).design), p), k) == Get(ConfigPart(config, p), k)
  {
    RoundTrip(config, ExportMetadata(info.themeName, info.description, info.tags, info.chatbotName, None), exportedAt, p, k);
  }

  // ---------------------------------------------------------------------
  // file names

  /** The characters `[a-z0-9_\-]` matches case-insensitively. */
  predicate IsKept(c: char) {
    ('a' <= c <= 'z') || ('A' <= c <= 'Z') || ('0' <= c <= '9') || c == '_' || c == '-'
  }

  /** The characters a sanitised name consists of. */
  predicate IsSafe(c: char) {
    ('a' <= c <= 'z') || ('0' <= c <= '9') || c == '_' || c == '-'
  }

  /** No two adjacent underscores. */
  predicate NoDoubleUnderscore(s: string) {
    forall i :: 0 <= i < |s| - 1 ==> !(s[i] == '_' && s[i + 1] == '_')
  }

  predicate AllSafe(s: string) {
    forall i :: 0 <= i < |s| ==> IsSafe(s[i])
  }

  /** `.replace(/[^a-z0-9_\-]/gi, "_")`. */
  function ReplaceInvalid(s: string): (r: string)
    ensures |r| == |s|
    ensures forall i :: 0 <= i < |s| ==> r[i] == if IsKept(s[i]) then s[i] else '_'
  {
    seq(|s|, i requires 0 <= i < |s| => if IsKept(s[i]) then s[i] else '_')
  }

  /** `.replace(/_+/g, "_")`: every run of underscores becomes one. */
  function Collapse(s: string): string
    decreases |s|
  {
    if |s| <= 1 then s
    else if s[0] == '_' && s[1] == '_' then Collapse(s[1..])
    else [s[0]] + Collapse(s[1..])
  }

  /** `sanitizeFilename`. */
  function SanitizeFilename(name: string): string {
    Lower(Collapse(ReplaceInvalid(name)))
  }

  /** The name a theme is downloaded under. */
  function DownloadName(themeName: string): (r: string)
    ensures EndsWith(r, ".json")
    ensures StartsWith(r, SanitizeFilename(themeName))
  {
    var s := SanitizeFilename(themeName);
    var r := s + ".json";
    assert r[..|s|] == s && r[|r| - 5..] == ".json";
    r
  }

  /** The letters, digits and hyphens of `s`, in order: what sanitising keeps apart from underscores. */
  function Essence(s: string): string
    decreases |s|
  {
    if s == [] then []
    else (if IsKept(s[0]) && s[0] != '_' then [s[0]] else []) + Essence(s[1..])
  }

  // ---------------------------------------------------------------------
  // properties of Collapse

  lemma {:induction false} CollapseShape(s: string)
    ensures |Collapse(s)| <= |s|
    ensures s != [] ==> Collapse(s) != [] && Collapse(s)[0] == s[0]
    ensures forall c :: c in Collapse(s) ==> c in s
    ensures NoDoubleUnderscore(Collapse(s))
    decreases |s|
  {
    if |s| > 1 {
      CollapseShape(s[1..]);
      var t := Collapse(s[1..]);
      if !(s[0] == '_' && s[1] == '_') {
        var r := [s[0]] + t;
        assert r[1..] == t;
        forall i | 0 <= i < |r| - 1 ensures !(r[i] == '_' && r[i + 1] == '_') {
          if i > 0 {
            assert r[i] == t[i - 1] && r[i + 1] == t[i];
          }
        }
      }
    }
  }

  lemma {:induction false} CollapseOfNoDouble(s: string)
    requires NoDoubleUnderscore(s)
    ensures Collapse(s) == s
    decreases |s|
  {
    if |s| > 1 {
      assert NoDoubleUnderscore(s[1..]) by {
        forall i | 0 <= i < |s[1..]| - 1 ensures !(s[1..][i] == '_' && s[1..][i + 1] == '_') {
          assert s[1..][i] == s[i + 1] && s[1..][i + 1] == s[i + 2];
        }
      }
      CollapseOfNoDouble(s[1..]);
      assert !(s[0] == '_' && s[1] == '_');
      assert [s[0]] + s[1..] == s;
    }
  }

  lemma {:induction false} EssenceAppend(a: string, b: string)
    ensures Essence(a + b) == Essence(a) + Essence(b)
    decreases |a|
  {
    if a == [] {
      assert a + b == b;
    } else {
      EssenceAppend(a[1..], b);
      assert (a + b)[0] == a[0] && (a + b)[1..] == a[1..] + b;
    }
  }

  lemma {:induction false} CollapseEssence(s: string)
    ensures Essence(Collapse(s)) == Essence(s)
    decreases |s|
  {
    if |s| > 1 {
      CollapseEssence(s[1..]);
      if !(s[0] == '_' && s[1] == '_') {
        EssenceAppend([s[0]], Collapse(s[1..]));
        assert Essence([s[0]]) == (if IsKept(s[0]) && s[0] != '_' then [s[0]] else []);
      }
    }
  }

  lemma {:induction false} ReplaceInvalidEssence(s: string)
    ensures Essence(ReplaceInvalid(s)) == Essence(s)
    decreases |s|
  {
    if s != [] {
      ReplaceInvalidEssence(s[1..]);
      assert ReplaceInvalid(s)[1..] == ReplaceInvalid(s[1..]);
    }
  }

  lemma {:induction false} LowerEssence(s: string)
    ensures Essence(Lower(s)) == Lower(Essence(s))
    decreases |s|
  {
    if s != [] {
      LowerEssence(s[1..]);
      assert Lower(s)[1..] == Lower(s[1..]);
      var head := if IsKept(s[0]) && s[0] != '_' then [s[0]] else [];
      LowerAppend(head, Essence(s[1..]));
    }
  }

  // ---------------------------------------------------------------------
  // properties of SanitizeFilename

  /** A sanitised name uses only `[a-z0-9_-]`, has no `__`, and is no longer than the input. */
  lemma SanitizeShape(name: string)
    ensures AllSafe(SanitizeFilename(name))
    ensures NoDoubleUnderscore(SanitizeFilename(name))
    ensures |SanitizeFilename(name)| <= |name|
  {
    var t := ReplaceInvalid(name);
    var c := Collapse(t);
    CollapseShape(t);
    forall i | 0 <= i < |c| ensures IsKept(c[i]) {
      assert c[i] in t;
    }
    var r := Lower(c);
    forall i | 0 <= i < |r| - 1 ensures !(r[i] == '_' && r[i + 1] == '_') {
      assert r[i] == LowerChar(c[i]) && r[i + 1] == LowerChar(c[i + 1]);
    }
  }

  /** Sanitising keeps every letter, digit and hyphen of the name, lower-cased and in order, and drops everything else except single underscores. */
  lemma SanitizeKeepsEssence(name: string)
    ensures Essence(SanitizeFilename(name)) == Lower(Essence(name))
  {
    ReplaceInvalidEssence(name);
    CollapseEssence(ReplaceInvalid(name));
    LowerEssence(Collapse(ReplaceInvalid(name)));
  }

  /** Sanitising a sanitised name changes nothing. */
  lemma SanitizeIdempotent(name: string)
    ensures SanitizeFilename(SanitizeFilename(name)) == SanitizeFilename(name)
  {
    var s := SanitizeFilename(name);
    SanitizeShape(name);
    assert ReplaceInvalid(s) == s;
    CollapseOfNoDouble(s);
    assert Lower(s) == s;
  }
}
