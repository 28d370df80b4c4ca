/** The field formatter of index.js: bitrate display text and the rewrite that turns a
    service name into a fragment of a variable id. */
module Formatter {
  import opened Wrappers
  import opened Text
  import opened JsValues

  // ---------------------------------------------------------------- bitrates

  /** Bits per second to hundredths of Mbps, rounding half up; stands in for
      `(bitrate / 1000000).toFixed(2)`. */
  function Hundredths(bitrate: nat): (h: nat)
    ensures h * 10000 <= bitrate + 5000 < h * 10000 + 10000
  {
    (bitrate + 5000) / 10000
  }

  /** `<units>.<two digits> Mbps` for a number of hundredths of Mbps. */
  function MbpsText(h: nat): string {
    NatToString(h / 100) + "." + [DigitChar(h % 100 / 10), DigitChar(h % 10)] + " Mbps"
  }

  /** The receiving flag as formatBitrate sees it: a missing argument takes the default
      `true`; any other value is tested for truthiness. */
  predicate Receiving(receiving: Field<bool>) {
    receiving.Absent? || TruthyBool(receiving)
  }

  /** formatBitrate(bitrate, receiving = true). */
  function FormatBitrate(bitrate: Field<nat>, receiving: Field<bool>): string {
    if !Receiving(receiving) then "No Data"
    else if !bitrate.Has? then "No Data"
    else if bitrate.value == 0 then "0 Mbps (No Signal)"
    else MbpsText(Hundredths(bitrate.value))
  }

  /** Reads `<digits>.<two digits> Mbps` back into hundredths of Mbps. */
  function ParseMbps(s: string): Option<nat> {
    if |s| < 9 || s[|s| - 5..] != " Mbps" then None
    else
      var body := s[..|s| - 5];
      var dot := |body| - 3;
      if body[dot] != '.' || !AllDigits(body[..dot]) || !AllDigits(body[dot + 1..]) then None
      else Some(ParseNat(body[..dot]) * 100 + ParseNat(body[dot + 1..]))
  }

  /** The Mbps text carries exactly the rounded value: reading it back gives it. */
  lemma MbpsTextRoundTrip(h: nat)
    ensures ParseMbps(MbpsText(h)) == Some(h)
  {
    var w := NatToString(h / 100);
    var d := [DigitChar(h % 100 / 10), DigitChar(h % 10)];
    var s := MbpsText(h);
    assert s == w + "." + d + " Mbps";
    var body := s[..|s| - 5];
    assert body == w + "." + d;
    var dot := |body| - 3;
    assert body[..dot] == w;
    assert body[dot + 1..] == d;
    ParseNatToString(h / 100);
    assert d[..1] == [DigitChar(h % 100 / 10)];
    assert d[..1][..0] == [];
    assert ParseNat(d[..1]) == h % 100 / 10;
    assert ParseNat(d) == (h % 100 / 10) * 10 + h % 10;
  }

  /** The text ends in " Mbps", so it is never one of the two fixed texts. */
  lemma MbpsTextShape(h: nat)
    ensures |MbpsText(h)| >= 9 && MbpsText(h)[|MbpsText(h)| - 1] == 's'
    ensures MbpsText(h) != "No Data" && MbpsText(h) != "0 Mbps (No Signal)"
  {
    var s := MbpsText(h);
    assert s[|s| - 1] == 's';
    assert "0 Mbps (No Signal)"[17] == ')';
  }

  /** "No Data" exactly when not receiving (an explicit falsy flag) or no bitrate. */
  lemma FormatBitrateNoData(bitrate: Field<nat>, receiving: Field<bool>)
    ensures FormatBitrate(bitrate, receiving) == "No Data"
            <==> !Receiving(receiving) || bitrate.Absent? || bitrate.Null?
  {
    if Receiving(receiving) && bitrate.Has? && bitrate.value != 0 {
      MbpsTextShape(Hundredths(bitrate.value));
    }
  }

  /** The no-signal text exactly for a zero bitrate that is being received. */
  lemma FormatBitrateZero(bitrate: Field<nat>, receiving: Field<bool>)
    ensures FormatBitrate(bitrate, receiving) == "0 Mbps (No Signal)"
            <==> Receiving(receiving) && bitrate == Has(0)
  {
    if Receiving(receiving) && bitrate.Has? && bitrate.value != 0 {
      MbpsTextShape(Hundredths(bitrate.value));
    }
  }

  /** A positive received bitrate is shown as its value in Mbps, within half a
      hundredth of the exact quotient. */
  lemma FormatBitrateValue(b: nat, receiving: Field<bool>)
    requires b > 0 && Receiving(receiving)
    ensures var h := Hundredths(b);
            ParseMbps(FormatBitrate(Has(b), receiving)) == Some(h)
            && h * 10000 <= b + 5000 < h * 10000 + 10000
  {
    MbpsTextRoundTrip(Hundredths(b));
  }

  lemma FormatBitrateExample()
    ensures FormatBitrate(Has(2500000), Absent) == "2.50 Mbps"
  {
    assert Hundredths(2500000) == 250;
    assert NatToString(2) == "2";
  }

  // ---------------------------------------------------------------- identifiers

  /** A character of the class `[a-zA-Z0-9_]`. */
  predicate IsWordChar(c: char) {
    'a' <= c <= 'z' || 'A' <= c <= 'Z' || '0' <= c <= '9' || c == '_'
  }

  /** The UTF-16 code units of a character: two above the Basic Multilingual Plane. */
  function Utf16Units(c: char): nat {
    if c as int >= 0x1_0000 then 2 else 1
  }

  /** The length of a string as JavaScript counts it, in UTF-16 code units. */
  function Utf16Length(s: string): nat
    decreases |s|
  {
    if s == [] then 0 else Utf16Units(s[0]) + Utf16Length(s[1..])
  }

  /** What the rewrite makes of one character: a word character stays, any other code
      unit becomes '_', so a character above the Basic Multilingual Plane gives two. */
  function SanitizeChar(c: char): (r: string)
    ensures |r| == Utf16Units(c)
  {
    if IsWordChar(c) then [c] else if c as int >= 0x1_0000 then "__" else "_"
  }

  /** `name.replace(/[^a-zA-Z0-9_]/g, '_')`. Without the `u` flag the class matches single
      UTF-16 code units. The result keeps the JavaScript length of the name and holds only
      word characters. */
  function Sanitize(name: string): (r: string)
    ensures |r| == Utf16Length(name)
    ensures forall i :: 0 <= i < |r| ==> IsWordChar(r[i])
    decreases |name|
  {
    if name == [] then [] else SanitizeChar(name[0]) + Sanitize(name[1..])
  }

  /** The rewrite works character by character. */
  lemma {:induction false} SanitizeConcat(a: string, b: string)
    ensures Sanitize(a + b) == Sanitize(a) + Sanitize(b)
    decreases |a|
  {
    if a != [] {
      assert (a + b)[0] == a[0] && (a + b)[1..] == a[1..] + b;
      SanitizeConcat(a[1..], b);
      calc {
        Sanitize(a + b);
        SanitizeChar(a[0]) + Sanitize(a[1..] + b);
        SanitizeChar(a[0]) + (Sanitize(a[1..]) + Sanitize(b));
        (SanitizeChar(a[0]) + Sanitize(a[1..])) + Sanitize(b);
      }
    } else {
      assert a + b == b;
    }
  }

  /** Word characters are kept and every other character is replaced in place: one '_'
      per UTF-16 code unit. */
  lemma SanitizeCharMeaning(c: char)
    ensures IsWordChar(c) ==> Sanitize([c]) == [c]
    ensures !IsWordChar(c) && c as int < 0x1_0000 ==> Sanitize([c]) == "_"
    ensures !IsWordChar(c) && c as int >= 0x1_0000 ==> Sanitize([c]) == "__"
  {
    assert [c][1..] == [];
  }

  /** A character outside the Basic Multilingual Plane gives two '_'. */
  lemma SanitizeAstralExample()
    ensures Sanitize("\U{1F4FA}x") == "__x"
  {
    SanitizeConcat("\U{1F4FA}", "x");
    SanitizeCharMeaning('\U{1F4FA}');
    SanitizeCharMeaning('x');
  }

  /** A name that already is a word leaves the rewrite unchanged. */
  lemma {:induction false} SanitizeKeepsWords(name: string)
    requires forall i :: 0 <= i < |name| ==> IsWordChar(name[i])
    ensures Sanitize(name) == name
    decreases |name|
  {
    if name != [] {
      SanitizeKeepsWords(name[1..]);
      assert name == [name[0]] + name[1..];
    }
  }

  lemma SanitizeIdempotent(name: string)
    ensures Sanitize(Sanitize(name)) == Sanitize(name)
  {
    SanitizeKeepsWords(Sanitize(name));
  }
}
