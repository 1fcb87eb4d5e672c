/**
 * Tenant branding: which tenant the page belongs to, how a tenant's
 * configuration file and later updates are laid over the defaults, and which
 * colour strings the CSS-variable writer accepts. The browser's location and
 * storage, the configuration fetch and the DOM writes are outside the model:
 * the hostname, the stored tenant and the fetch result are parameters.
 */
module Branding {
  import opened JsValues
  import opened JsText

  // ---------------------------------------------------------------------------
  // Tenant detection

  const DefaultTenant: string := "default"

  /**
   * The test `/^\d+\.\d+\.\d+\.\d+$/`: four non-empty runs of ASCII digits
   * separated by dots. The size of each run is not checked.
   */
  predicate IsDottedQuad(hostname: string)
  {
    var parts := Split(hostname, '.');
    |parts| == 4 && forall k :: 0 <= k < 4 ==> IsDigitRun(parts[k])
  }

  predicate IsDigitRun(s: string)
  {
    |s| > 0 && forall i :: 0 <= i < |s| ==> IsAsciiDigit(s[i])
  }

  /** `hostname.split('.')[0]`: the text before the first dot. */
  function FirstLabel(hostname: string): (r: string)
    ensures '.' !in r
    ensures '.' !in hostname ==> r == hostname
    ensures '.' in hostname ==> r == hostname[..IndexOf(hostname, '.')]
  {
    SplitFirst(hostname, '.');
    Split(hostname, '.')[0]
  }

  /**
   * `detectTenantId`: the first label of the hostname when it is a real
   * subdomain (non-empty, not `localhost`, and the hostname not an IPv4-like
   * address); otherwise the stored tenant when it is non-empty; otherwise
   * "default".
   */
  function DetectTenantId(hostname: string, stored: Option<string>): (r: string)
    ensures r != ""
    ensures IsSubdomain(hostname) ==> r == FirstLabel(hostname)
    ensures !IsSubdomain(hostname) && stored.Some? && stored.value != "" ==> r == stored.value
    ensures !IsSubdomain(hostname) && (stored.None? || stored.value == "") ==> r == DefaultTenant
  {
    var subdomain := FirstLabel(hostname);
    if subdomain != "" && subdomain != "localhost" && !IsDottedQuad(hostname) then subdomain
    else if stored.Some? && stored.value != "" then stored.value
    else DefaultTenant
  }

  predicate IsSubdomain(hostname: string)
  {
    FirstLabel(hostname) != "" && FirstLabel(hostname) != "localhost" && !IsDottedQuad(hostname)
  }

  /** Four dot-separated digit runs form a dotted quad, whatever their values. */
  lemma QuadOfRuns(a: string, b: string, c: string, d: string)
    requires IsDigitRun(a) && IsDigitRun(b) && IsDigitRun(c) && IsDigitRun(d)
    ensures IsDottedQuad(a + "." + b + "." + c + "." + d)
  {
    var parts := [a, b, c, d];
    forall k | 0 <= k < 4 ensures '.' !in parts[k] {
      assert IsDigitRun(parts[k]);
    }
    JoinFour(a, b, c, d, ".");
    SplitJoin(parts, '.');
  }

  lemma JoinFour(a: string, b: string, c: string, d: string, sep: string)
    ensures Join([a, b, c, d], sep) == a + sep + b + sep + c + sep + d
  {
    JoinCons(c, [d], sep);
    assert [c] + [d] == [c, d];
    JoinCons(b, [c, d], sep);
    assert [b] + [c, d] == [b, c, d];
    JoinCons(a, [b, c, d], sep);
    assert [a] + [b, c, d] == [a, b, c, d];
  }

  /** An address of four digit runs never names a tenant: the stored tenant or "default" is used. */
  lemma AddressFallsBack(a: string, b: string, c: string, d: string, stored: Option<string>)
    requires IsDigitRun(a) && IsDigitRun(b) && IsDigitRun(c) && IsDigitRun(d)
    ensures DetectTenantId(a + "." + b + "." + c + "." + d, stored)
         == if stored.Some? && stored.value != "" then stored.value else DefaultTenant
  {
    QuadOfRuns(a, b, c, d);
  }

  /** `999.1.1.1` is taken for an IP address although 999 is no octet. */
  lemma OutOfRangeOctetIsAnAddress(hostname: string, stored: Option<string>)
    requires hostname == "999.1.1.1"
    ensures IsDottedQuad(hostname)
    ensures DetectTenantId(hostname, stored) == if stored.Some? && stored.value != "" then stored.value else DefaultTenant
  {
    var nines, one := "999", "1";
    assert IsDigitRun(nines) && IsDigitRun(one);
    assert hostname == nines + "." + one + "." + one + "." + one;
    QuadOfRuns(nines, one, one, one);
    AddressFallsBack(nines, one, one, one, stored);
  }

  /** A hostname whose first label has a letter, and is not `localhost`, names its tenant. */
  lemma SubdomainNamesTenant(first: string, rest: string, stored: Option<string>)
    requires '.' !in first && first != "localhost"
    requires exists i :: 0 <= i < |first| && !IsAsciiDigit(first[i])
    ensures DetectTenantId(first + "." + rest, stored) == first
  {
    var hostname := first + "." + rest;
    IndexOfAfterFreePrefix(first, '.', rest);
    assert hostname[..|first|] == first;
    assert FirstLabel(hostname) == first;
    SplitFirst(hostname, '.');
    assert !IsDigitRun(Split(hostname, '.')[0]);
  }

  // ---------------------------------------------------------------------------
  // Configuration merges

  /** A brand configuration: property name to JSON value. */
  type BrandConfig = map<string, JsValue>

  /**
   * The built-in configuration. `blur_opacity` (0.4) is left out because
   * numbers are integers in this model.
   */
  const DefaultBrandConfig: BrandConfig := map[
    "tenant_id" := Str("default"),
    "name" := Str("Gestão com Dados"),
    "primary_color" := Str("#2563eb"),
    "secondary_color" := Str("#64748b"),
    "accent_color" := Str("#059669"),
    "welcome_message" := Str("Sistema de Gestão Baseada em Evidências"),
    "footer_text" := Str("Desenvolvido por Gestão com Dados"),
    "tagline" := Str("Plataforma de gestão pública baseada em evidências"),
    "background_image" := Str("/placeholder.svg"),
    "blur_color" := Str("#000000")
  ]

  /** The own properties `{...v}` copies: an object's fields; none for `null` and primitives. */
  function SpreadFields(v: JsValue): (r: BrandConfig)
    ensures v.Obj? ==> r == v.fields
    ensures !v.Obj? ==> r == map[]
  {
    if v.Obj? then v.fields else map[]
  }

  /**
   * `{ ...base, ...patch }`: the keys of both, each with the patch's value
   * when the patch has it and the base's otherwise.
   */
  function Overlay(base: BrandConfig, patch: BrandConfig): (r: BrandConfig)
    ensures r.Keys == base.Keys + patch.Keys
    ensures forall k :: k in patch ==> r[k] == patch[k]
    ensures forall k :: k in base && k !in patch ==> r[k] == base[k]
  {
    base + patch
  }

  /** Laying an empty patch changes nothing; laying the same patch twice is laying it once. */
  lemma OverlayIdentityAndIdempotent(base: BrandConfig, patch: BrandConfig)
    ensures Overlay(base, map[]) == base
    ensures Overlay(Overlay(base, patch), patch) == Overlay(base, patch)
  {
    assert Overlay(base, map[]).Keys == base.Keys;
    assert Overlay(Overlay(base, patch), patch).Keys == Overlay(base, patch).Keys;
  }

  /** Two successive updates are one update with the second patch laid over the first. */
  lemma OverlayCompose(base: BrandConfig, p: BrandConfig, q: BrandConfig)
    ensures Overlay(Overlay(base, p), q) == Overlay(base, Overlay(p, q))
  {
    assert Overlay(Overlay(base, p), q).Keys == Overlay(base, Overlay(p, q)).Keys;
  }

  /** The outcome of fetching `/configs/tenants/<id>.json` and decoding it. */
  datatype ConfigFetch = FetchThrew | NotOk | Decoded(config: JsValue)

  /**
   * `loadBrandConfig`: a decoded configuration is laid over the defaults; a
   * failed request keeps the defaults. Applying the CSS variables of a
   * decoded `null` throws, and the handler then sets the defaults.
   */
  function LoadBrandConfig(fetched: ConfigFetch): (r: BrandConfig)
    ensures fetched.Decoded? ==> r == Overlay(DefaultBrandConfig, SpreadFields(fetched.config))
    ensures !fetched.Decoded? ==> r == DefaultBrandConfig
    ensures DefaultBrandConfig.Keys <= r.Keys
  {
    match fetched
    case Decoded(config) =>
      if config.Null? then DefaultBrandConfig
      else DefaultBrandConfig + SpreadFields(config)
    case _ => DefaultBrandConfig
  }

  /** `updateBrandConfig`: only the supplied properties of the current configuration change. */
  function UpdateBrandConfig(current: BrandConfig, patch: BrandConfig): (r: BrandConfig)
    ensures r.Keys == current.Keys + patch.Keys
    ensures forall k :: k in patch ==> r[k] == patch[k]
    ensures forall k :: k in current && k !in patch ==> r[k] == current[k]
  {
    Overlay(current, patch)
  }

  // ---------------------------------------------------------------------------
  // Colour strings

  /** Output of `hexToHsl` for a string that is not a six-digit hex colour. */
  const HslFallback: string := "0 0% 0%"

  function HexValue(c: char): (v: nat)
    requires IsHexDigit(c)
    ensures v < 16
  {
    if IsAsciiDigit(c) then c as int - '0' as int
    else if 'a' <= c <= 'f' then c as int - 'a' as int + 10
    else c as int - 'A' as int + 10
  }

  /** `parseInt(s.substring(i, i + 2), 16)` on two hex digits. */
  function HexByte(s: string, i: nat): (v: nat)
    requires i + 1 < |s| && IsHexDigit(s[i]) && IsHexDigit(s[i + 1])
    ensures v < 256
  {
    16 * HexValue(s[i]) + HexValue(s[i + 1])
  }

  /**
   * The test `/^#?([a-f\d]{2})([a-f\d]{2})([a-f\d]{2})$/i`, with the three
   * channels it captures as numbers; `None` is the input `hexToHsl` answers
   * with "0 0% 0%".
   */
  function ParseHexColor(hex: string): (r: Option<(nat, nat, nat)>)
    ensures r.Some? <==>
      || (|hex| == 6 && forall i :: 0 <= i < 6 ==> IsHexDigit(hex[i]))
      || (|hex| == 7 && hex[0] == '#' && forall i :: 1 <= i < 7 ==> IsHexDigit(hex[i]))
    ensures r.Some? ==> r.value.0 < 256 && r.value.1 < 256 && r.value.2 < 256
  {
    var body := if |hex| > 0 && hex[0] == '#' then hex[1..] else hex;
    if |body| == 6 && forall i :: 0 <= i < 6 ==> IsHexDigit(body[i]) then
      Some((HexByte(body, 0), HexByte(body, 2), HexByte(body, 4)))
    else None
  }

  function HexDigit(d: nat): (c: char)
    requires d < 16
    ensures IsHexDigit(c) && HexValue(c) == d
  {
    if d < 10 then ('0' as int + d) as char else ('a' as int + d - 10) as char
  }

  /** `#rrggbb` in lower-case hex, the form of the configured colours. */
  function FormatHexColor(r: nat, g: nat, b: nat): (s: string)
    requires r < 256 && g < 256 && b < 256
    ensures |s| == 7 && s[0] == '#'
  {
    ['#', HexDigit(r / 16), HexDigit(r % 16), HexDigit(g / 16), HexDigit(g % 16),
     HexDigit(b / 16), HexDigit(b % 16)]
  }

  /** Every colour written as `#rrggbb` is accepted and read back channel by channel. */
  lemma ParseFormatHexColor(r: nat, g: nat, b: nat)
    requires r < 256 && g < 256 && b < 256
    ensures ParseHexColor(FormatHexColor(r, g, b)) == Some((r, g, b))
  {
    var s := FormatHexColor(r, g, b);
    assert s[1..] == [HexDigit(r / 16), HexDigit(r % 16), HexDigit(g / 16), HexDigit(g % 16),
                      HexDigit(b / 16), HexDigit(b % 16)];
  }

  /**
   * What `hexToHsl` writes into a CSS variable: the literal fallback, or the
   * HSL triple it computes from the three channels, whose floating-point
   * arithmetic is not modelled.
   */
  datatype HslValue = HslText(text: string) | HslOf(red: nat, green: nat, blue: nat)

  /** `hexToHsl`: the fallback exactly for a string the hex test rejects, else the captured channels. */
  function HexToHsl(hex: string): (r: HslValue)
    ensures r == HslText(HslFallback) <==> ParseHexColor(hex).None?
    ensures r.HslOf? <==> ParseHexColor(hex).Some?
    ensures r.HslOf? ==> (r.red, r.green, r.blue) == ParseHexColor(hex).value
    ensures r.HslOf? ==> r.red < 256 && r.green < 256 && r.blue < 256
  {
    match ParseHexColor(hex)
    case None => HslText(HslFallback)
    case Some((red, green, blue)) => HslOf(red, green, blue)
  }

  /** A colour written as `#rrggbb` is converted from its own channels, never the fallback. */
  lemma FormattedColourConverted(r: nat, g: nat, b: nat)
    requires r < 256 && g < 256 && b < 256
    ensures HexToHsl(FormatHexColor(r, g, b)) == HslOf(r, g, b)
  {
    ParseFormatHexColor(r, g, b);
  }

  /** The test ignores letter case: upper-casing a colour string reads the same channels. */
  lemma ParseHexColorCaseInsensitive(hex: string)
    ensures ParseHexColor(ToUpper(hex)) == ParseHexColor(hex)
  {
    var up := ToUpper(hex);
    forall i | 0 <= i < |hex| ensures IsHexDigit(up[i]) <==> IsHexDigit(hex[i])
      ensures IsHexDigit(hex[i]) ==> HexValue(up[i]) == HexValue(hex[i])
    {
    }
    if |hex| > 0 && hex[0] == '#' {
      assert up[0] == '#';
      assert ToUpper(hex[1..]) == up[1..];
    }
  }
}
