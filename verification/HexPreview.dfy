/** Shortening long hex values in log output. A Go string is modelled with one character per byte. */
module HexPreview {
  import opened Bytes
  import opened Decimals
  import opened Options

  const THRESHOLD := 256
  const PREVIEW := 32

  /** Lengths of Go strings and slices fit a signed 64-bit `int`. */
  const MAX_LENGTH := 0x7fff_ffff_ffff_ffff

  predicate IsHexChar(c: char) {
    '0' <= c <= '9' || 'a' <= c <= 'f' || 'A' <= c <= 'F'
  }

  function HexDigit(n: nat): (c: char)
    requires n < 16
    ensures IsHexChar(c)
  {
    if n < 10 then ('0' as int + n) as char else ('a' as int + n - 10) as char
  }

  /** `hex.EncodeToString`: two digits a byte, the high one first. */
  function Hex(body: seq<Byte>): (s: string)
    ensures |s| == 2 * |body|
  {
    seq(2 * |body|, i requires 0 <= i < 2 * |body| =>
      HexDigit(if i % 2 == 0 then body[i / 2] / 16 else body[i / 2] % 16))
  }

  function DigitValue(c: char): (d: Option<nat>)
    ensures d.Some? <==> IsHexChar(c)
  {
    if '0' <= c <= '9' then Some((c - '0') as nat)
    else if 'a' <= c <= 'f' then Some((c - 'a') as nat + 10)
    else if 'A' <= c <= 'F' then Some((c - 'A') as nat + 10)
    else None
  }

  /** The encoding can be decoded: each byte is the value of its two digits. */
  lemma HexDecodes(body: seq<Byte>, i: nat)
    requires i < |body|
    ensures var high, low := DigitValue(Hex(body)[2 * i]), DigitValue(Hex(body)[2 * i + 1]);
      high.Some? && low.Some? && body[i] == 16 * high.value + low.value
  {
    DigitRoundTrip(body[i] / 16);
    DigitRoundTrip(body[i] % 16);
  }

  lemma DigitRoundTrip(n: nat)
    requires n < 16
    ensures DigitValue(HexDigit(n)) == Some(n)
  {
  }

  predicate LooksHex(s: string) {
    && |s| >= 2 && (s[..2] == "0x" || s[..2] == "0X")
    && forall i :: 2 <= i < |s| && i < 18 ==> IsHexChar(s[i])
  }

  /** What is shown of a value: all of it, or its ends and its size. */
  datatype Shown = Whole(text: string) | Ends(prefix: string, suffix: string, byteCount: nat)

  function Render(v: Shown): string {
    match v
    case Whole(text) => text
    case Ends(prefix, suffix, n) => "0x" + prefix + "..." + suffix + " <" + Decimal(n) + " bytes>"
  }

  function Shorten(s: string): Shown {
    if |s| <= THRESHOLD || !LooksHex(s) then Whole(s)
    else Ends(s[2..2 + PREVIEW], s[|s| - PREVIEW..], (|s| - 2) / 2)
  }

  function Truncated(s: string): string {
    Render(Shorten(s))
  }

  /** `truncateHexValue`, with its spot check of the first 16 characters. */
  method TruncateHexValue(s: string) returns (r: string)
    ensures r == Truncated(s)
  {
    if |s| <= THRESHOLD {
      return s;
    }
    if !("0x" <= s) && !("0X" <= s) {
      return s;
    }
    var check := s[2..];
    if |check| > 16 {
      check := check[..16];
    }
    for i := 0 to |check|
      invariant forall j :: 2 <= j < i + 2 ==> IsHexChar(s[j])
    {
      if !IsHexChar(check[i]) {
        return s;
      }
    }
    var byteCount := (|s| - 2) / 2;
    var prefix := s[2..2 + PREVIEW];
    var suffix := s[|s| - PREVIEW..];
    return Render(Ends(prefix, suffix, byteCount));
  }

  // ----- The same position by position.

  /** A prefix, and sixteen hexadecimal digits after it as far as there are that many characters. */
  predicate StartsAsHex(s: string) {
    && |s| >= 2 && s[0] == '0' && (s[1] == 'x' || s[1] == 'X')
    && forall i :: 2 <= i < 18 && i < |s| ==> '0' <= s[i] <= '9' || 'a' <= s[i] <= 'f' || 'A' <= s[i] <= 'F'
  }

  /** `r` is what is to be shown of `s`: `s` itself, or its ends and how many bytes it stands for. */
  predicate ShortForm(s: string, r: string) {
    if |s| <= 256 || !StartsAsHex(s) then r == s
    else
      && |r| > 78
      && r[..2] == "0x" && r[2..34] == s[2..34] && r[34..37] == "..." && r[37..69] == s[|s| - 32..]
      && r[69..71] == " <" && r[|r| - 7..] == " bytes>"
      && (forall i :: 71 <= i < |r| - 7 ==> IsDigit(r[i])) && Value(r[71..|r| - 7]) == (|s| - 2) / 2
  }

  lemma Pieces(a: string, b: string, c: string, d: string, e: string, f: string, g: string)
    ensures var r, n := a + b + c + d + e + f + g, |a| + |b| + |c| + |d| + |e|;
      && |r| == n + |f| + |g|
      && r[..|a|] == a && r[|a|..|a| + |b|] == b && r[|a| + |b|..|a| + |b| + |c|] == c
      && r[|a| + |b| + |c|..n - |e|] == d && r[n - |e|..n] == e && r[n..n + |f|] == f && r[n + |f|..] == g
  {
  }

  lemma StartsAsHexIff(s: string)
    ensures StartsAsHex(s) <==> LooksHex(s)
  {
    assert |s| >= 2 ==> (s[..2] == "0x" <==> s[0] == '0' && s[1] == 'x');
    assert |s| >= 2 ==> (s[..2] == "0X" <==> s[0] == '0' && s[1] == 'X');
  }

  lemma RenderedEnds(prefix: string, suffix: string, n: nat)
    requires |prefix| == 32 && |suffix| == 32
    ensures var r, w := Render(Ends(prefix, suffix, n)), |Decimal(n)|;
      && |r| == 78 + w && r[..2] == "0x" && r[2..34] == prefix && r[34..37] == "..." && r[37..69] == suffix
      && r[69..71] == " <" && r[71..71 + w] == Decimal(n) && r[71 + w..] == " bytes>"
  {
    Pieces("0x", prefix, "...", suffix, " <", Decimal(n), " bytes>");
  }

  /** Truncation gives the short form of every string. */
  lemma TruncatedIsShortForm(s: string)
    ensures ShortForm(s, Truncated(s))
  {
    StartsAsHexIff(s);
    if |s| > 256 && LooksHex(s) {
      var n := (|s| - 2) / 2;
      RenderedEnds(s[2..34], s[|s| - 32..], n);
      ValueOfDecimal(n);
      var r, w := Truncated(s), |Decimal(n)|;
      assert forall i :: 71 <= i < 71 + w ==> r[i] == r[71..71 + w][i - 71];
    }
  }

  // ----- Bodies.

  /** With truncation on, a long body is encoded only where the preview shows it. */
  function ShowBody(body: seq<Byte>, truncate: bool): Shown {
    if truncate && |body| > THRESHOLD / 2 then
      Ends(Hex(body[..PREVIEW / 2]), Hex(body[|body| - PREVIEW / 2..]), |body|)
    else if truncate then Shorten("0x" + Hex(body))
    else Whole("0x" + Hex(body))
  }

  /** `formatHexBodyForLog`. */
  function FormatHexBody(body: seq<Byte>, truncate: bool): string {
    Render(ShowBody(body, truncate))
  }

  /** With truncation off, the whole body is shown. */
  lemma UntruncatedIsWhole(body: seq<Byte>)
    ensures FormatHexBody(body, false) == "0x" + Hex(body)
  {
  }

  /** Each byte is encoded on its own, so the ends of the encoding are the encodings of the ends. */
  lemma HexHead(body: seq<Byte>)
    requires PREVIEW / 2 <= |body|
    ensures Hex(body)[..PREVIEW] == Hex(body[..PREVIEW / 2])
  {
  }

  lemma HexTail(body: seq<Byte>)
    requires PREVIEW / 2 <= |body|
    ensures Hex(body)[|Hex(body)| - PREVIEW..] == Hex(body[|body| - PREVIEW / 2..])
  {
    var h, m := Hex(body), |body| - PREVIEW / 2;
    forall i | 0 <= i < PREVIEW ensures h[|h| - PREVIEW..][i] == Hex(body[m..])[i] {
      assert |h| - PREVIEW + i == 2 * m + i;
      assert (2 * m + i) / 2 == m + i / 2 && (2 * m + i) % 2 == i % 2;
      assert body[m..][i / 2] == body[m + i / 2];
    }
  }

  lemma AfterPrefix(h: string, i: nat, j: nat)
    requires i <= j <= |h|
    ensures ("0x" + h)[2 + i..2 + j] == h[i..j]
  {
  }

  lemma ShortenHex(h: string)
    requires |h| + 2 > THRESHOLD && (forall i :: 0 <= i < |h| ==> IsHexChar(h[i]))
    ensures Shorten("0x" + h) == Ends(h[..PREVIEW], h[|h| - PREVIEW..], |h| / 2)
  {
    var s := "0x" + h;
    AfterPrefix(h, 0, PREVIEW);
    AfterPrefix(h, |h| - PREVIEW, |h|);
    assert LooksHex(s) by {
      assert s[..2] == "0x";
      assert forall i :: 2 <= i < |s| ==> s[i] == h[i - 2];
    }
    assert h[0..PREVIEW] == h[..PREVIEW] && h[|h| - PREVIEW..|h|] == h[|h| - PREVIEW..];
    assert s[|s| - PREVIEW..] == s[2 + (|h| - PREVIEW)..2 + |h|];
  }

  lemma SameEnds(body: seq<Byte>)
    ensures ShowBody(body, true) == Shorten("0x" + Hex(body))
  {
    if |body| > THRESHOLD / 2 {
      ShortenHex(Hex(body));
      HexHead(body);
      HexTail(body);
    }
  }

  /** The fast path shows what encoding the whole body and truncating the result would show, for every body. */
  lemma FastPreviewAgrees(body: seq<Byte>)
    ensures FormatHexBody(body, true) == Truncated("0x" + Hex(body))
  {
    SameEnds(body);
  }

  /** Truncation keeps short strings, and makes a string it changes strictly shorter and short of the threshold. */
  lemma TruncatedShrinks(s: string)
    ensures |s| <= THRESHOLD ==> Truncated(s) == s
    ensures Truncated(s) != s ==> |Truncated(s)| < |s|
    ensures |s| <= MAX_LENGTH && Truncated(s) != s ==> |Truncated(s)| <= THRESHOLD
  {
    if |s| > THRESHOLD && LooksHex(s) {
      var n := (|s| - 2) / 2;
      DecimalShort(n);
      assert |Truncated(s)| == 78 + |Decimal(n)|;
      if |s| <= MAX_LENGTH {
        Pow10Twenty();
        DecimalWidth(n, 20);
      }
    }
  }

  lemma Pow10Twenty()
    ensures Pow10(20) == 100_000_000_000_000_000_000
  {
    assert Pow10(5) == 100_000;
    assert Pow10(10) == 10_000_000_000;
    assert Pow10(15) == 1_000_000_000_000_000;
  }

  /** Truncating twice is truncating once, for every length a Go string can have. */
  lemma TruncatedIdempotent(s: string)
    requires |s| <= MAX_LENGTH
    ensures Truncated(Truncated(s)) == Truncated(s)
  {
    TruncatedShrinks(s);
  }
}
