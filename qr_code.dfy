/**
 * The receipt QR payload `MRP_{receiptId}_{deviceId}_{hash}`: building it,
 * checking its format, reading the ids back, and the ESC/POS command strings
 * that make a thermal printer store and print it.
 */
module QrCode {
  import opened Wrappers
  import opened Json
  import opened Strings

  const QR_PREFIX := "MRP"
  const QR_SEPARATOR := '_'

  // ---------------------------------------------------------------------------
  // The tamper-detection hash
  // ---------------------------------------------------------------------------

  /**
   * What `MessageDigest.getInstance("SHA-256")` gives for the UTF-8 bytes of the
   * hash input: the 32-byte digest, or no SHA-256 provider (the exception path).
   * The digest itself is computed outside this model.
   */
  datatype Digest = Sha256(bytes: seq<bv8>) | NoSha256

  /** A SHA-256 digest is 32 bytes long. */
  predicate WellFormed(d: Digest) {
    d.Sha256? ==> |d.bytes| == 32
  }

  predicate IsLowerHex(c: char) {
    '0' <= c <= '9' || 'a' <= c <= 'f'
  }

  function HexDigit(n: nat): (c: char)
    requires n < 16
    ensures IsLowerHex(c)
  {
    "0123456789abcdef"[n]
  }

  /** `"%02x".format(b)`: two lower-case hex digits of the unsigned byte value. */
  function HexByte(b: bv8): (s: string)
    ensures |s| == 2 && IsLowerHex(s[0]) && IsLowerHex(s[1])
    ensures (s[0] == HexDigit(b as int / 16)) && (s[1] == HexDigit(b as int % 16))
  {
    [HexDigit(b as int / 16), HexDigit(b as int % 16)]
  }

  /** `joinToString("") { "%02x".format(it) }`. */
  function HexString(bytes: seq<bv8>): (s: string)
    ensures |s| == 2 * |bytes|
    ensures forall i :: 0 <= i < |s| ==> IsLowerHex(s[i])
    decreases |bytes|
  {
    if bytes == [] then []
    else
      var init := HexString(bytes[..|bytes| - 1]);
      var last := HexByte(bytes[|bytes| - 1]);
      assert forall i :: |init| <= i < |init| + 2 ==> (init + last)[i] == last[i - |init|];
      init + last
  }

  /**
   * Java's `String.hashCode()`: `h = 31 * h + c` over the characters, in 32-bit
   * arithmetic that wraps.
   */
  function JavaHashCode(s: string): (h: int32)
    ensures h == Wrap32(HashPolynomial(s))
    decreases |s|
  {
    if s == [] then 0
    else
      var init, c := s[..|s| - 1], s[|s| - 1];
      assert init + [c] == s;
      HashPolynomialSnoc(init, c);
      Wrap32Step(HashPolynomial(init), c as int);
      Wrap32(31 * JavaHashCode(init) + c as int)
  }

  function Pow31(n: nat): int {
    if n == 0 then 1 else 31 * Pow31(n - 1)
  }

  /** The documented value of `hashCode`, before narrowing: `s[0]*31^(n-1) + ... + s[n-1]`. */
  function HashPolynomial(s: string): int
    decreases |s|
  {
    if s == [] then 0 else s[0] as int * Pow31(|s| - 1) + HashPolynomial(s[1..])
  }

  /** Appending a character multiplies the polynomial by 31 and adds the character. */
  lemma {:induction false} HashPolynomialSnoc(s: string, c: char)
    ensures HashPolynomial(s + [c]) == 31 * HashPolynomial(s) + c as int
    decreases |s|
  {
    if s == [] {
      assert [] + [c] == [c];
      assert [c][1..] == [];
    } else {
      var t := s + [c];
      assert t[0] == s[0] && t[1..] == s[1..] + [c];
      HashPolynomialSnoc(s[1..], c);
      var x, p := s[0] as int, Pow31(|s| - 1);
      assert Pow31(|t| - 1) == 31 * p;
      assert x * (31 * p) == 31 * (x * p);
    }
  }

  /** Narrowing before the multiply-and-add step gives the same 32 bits as narrowing after it. */
  lemma Wrap32Step(x: int, c: int)
    ensures Wrap32(31 * Wrap32(x) + c) == Wrap32(31 * x + c)
  {
    var w := Wrap32(x);
    var k := (x - w) / 0x1_0000_0000;
    assert x - w == k * 0x1_0000_0000;
    assert (31 * x + c) - (31 * w + c) == (31 * k) * 0x1_0000_0000;
    Wrap32Congruent(31 * x + c, 31 * w + c, 31 * k);
  }

  lemma Wrap32Congruent(a: int, b: int, k: int)
    requires a - b == k * 0x1_0000_0000
    ensures Wrap32(a) == Wrap32(b)
  {
    assert a % 0x1_0000_0000 == b % 0x1_0000_0000;
  }

  /** `Math.abs` on an `Int`: the absolute value, except that the most negative value is its own. */
  function Abs32(x: int32): (r: int32)
    ensures x == -0x8000_0000 ==> r == x
    ensures x != -0x8000_0000 ==> r >= 0 && (r == x || r == -x)
  {
    if x == -0x8000_0000 then x else if x < 0 then -x else x
  }

  /**
   * generateHash: the first eight hex digits of the digest, or, without SHA-256,
   * `abs(hashCode)` in decimal, left-padded with '0' and cut to eight characters.
   */
  function GenerateHash(input: string, digest: Digest): (h: string)
    requires WellFormed(digest)
    ensures |h| == 8 && QR_SEPARATOR !in h
    ensures digest.Sha256? ==> forall i :: 0 <= i < 8 ==> IsLowerHex(h[i])
    ensures digest.NoSha256? ==>
      forall i :: 0 <= i < 8 ==> IsDecimalDigit(h[i]) || h[i] == '-'
  {
    match digest
    case Sha256(bytes) => Take(HexString(bytes), 8)
    case NoSha256 =>
      var digits := IntToString(Abs32(JavaHashCode(input)));
      var padded := PadStart(digits, 8, '0');
      PadStartChars(digits, 8, '0');
      Take(padded, 8)
  }

  /** Every character of a padded string is a pad character or one of the original. */
  lemma PadStartChars(s: string, n: nat, c: char)
    ensures var r := PadStart(s, n, c);
      forall i :: 0 <= i < |r| ==> r[i] == c || r[i] in s
  {
    var r := PadStart(s, n, c);
    forall i | 0 <= i < |r| ensures r[i] == c || r[i] in s {
      if i >= |r| - |s| {
        assert r[i] == r[|r| - |s|..][i - (|r| - |s|)];
      }
    }
  }

  // ---------------------------------------------------------------------------
  // Building, validating and reading the payload
  // ---------------------------------------------------------------------------

  /** Separator-joined text of the four parts. */
  function Assemble(receiptId: string, deviceId: string, hash: string): string {
    QR_PREFIX + [QR_SEPARATOR] + receiptId + [QR_SEPARATOR] + deviceId + [QR_SEPARATOR] + hash
  }

  /** generateQRContent: the hash covers receipt id, device id and the receipt data. */
  function GenerateQRContent(receiptId: string, deviceId: string, receiptData: string, digest: Digest): (q: string)
    requires WellFormed(digest)
    ensures var h := GenerateHash(receiptId + deviceId + receiptData, digest);
      && q == Assemble(receiptId, deviceId, h)
      && |q| == |receiptId| + |deviceId| + 14
  {
    Assemble(receiptId, deviceId, GenerateHash(receiptId + deviceId + receiptData, digest))
  }

  /** validateQRFormat. */
  predicate ValidateQRFormat(qrContent: string) {
    var parts := Split(qrContent, QR_SEPARATOR);
    && |parts| == 4
    && parts[0] == QR_PREFIX
    && |parts[1]| > 0
    && |parts[2]| > 0
    && |parts[3]| == 8
  }

  /** The assembled text is the join of its four parts. */
  lemma AssembleIsJoin(receiptId: string, deviceId: string, hash: string)
    ensures Assemble(receiptId, deviceId, hash) == Join([QR_PREFIX, receiptId, deviceId, hash], QR_SEPARATOR)
  {
    var parts := [QR_PREFIX, receiptId, deviceId, hash];
    assert Join(parts[3..], QR_SEPARATOR) == hash;
    assert Join(parts[2..], QR_SEPARATOR) == deviceId + [QR_SEPARATOR] + hash;
    assert Join(parts[1..], QR_SEPARATOR) == receiptId + [QR_SEPARATOR] + deviceId + [QR_SEPARATOR] + hash;
  }

  /**
   * A valid payload is exactly an assembly of four underscore-free parts: the
   * prefix, a non-empty receipt id, a non-empty device id and eight characters.
   */
  lemma ValidIsAssembled(qrContent: string)
    requires ValidateQRFormat(qrContent)
    ensures var parts := Split(qrContent, QR_SEPARATOR);
      && qrContent == Assemble(parts[1], parts[2], parts[3])
      && parts[1] != [] && parts[2] != [] && |parts[3]| == 8
      && QR_SEPARATOR !in parts[1] && QR_SEPARATOR !in parts[2] && QR_SEPARATOR !in parts[3]
  {
    var parts := Split(qrContent, QR_SEPARATOR);
    JoinSplit(qrContent, QR_SEPARATOR);
    AssembleIsJoin(parts[1], parts[2], parts[3]);
    assert parts == [QR_PREFIX, parts[1], parts[2], parts[3]];
  }

  /** Conversely, such an assembly validates and splits back into its parts. */
  lemma AssembledIsValid(receiptId: string, deviceId: string, hash: string)
    requires receiptId != [] && deviceId != [] && |hash| == 8
    requires QR_SEPARATOR !in receiptId && QR_SEPARATOR !in deviceId && QR_SEPARATOR !in hash
    ensures Split(Assemble(receiptId, deviceId, hash), QR_SEPARATOR) == [QR_PREFIX, receiptId, deviceId, hash]
    ensures ValidateQRFormat(Assemble(receiptId, deviceId, hash))
  {
    var parts := [QR_PREFIX, receiptId, deviceId, hash];
    AssembleIsJoin(receiptId, deviceId, hash);
    SplitJoin(parts, QR_SEPARATOR);
  }

  /** validateQRFormat holds exactly of assembled payloads with non-empty, underscore-free ids and an 8-character hash. */
  lemma ValidateQRFormatIff(qrContent: string)
    ensures ValidateQRFormat(qrContent) <==>
      exists receiptId, deviceId, hash ::
        && receiptId != [] && deviceId != [] && |hash| == 8
        && QR_SEPARATOR !in receiptId && QR_SEPARATOR !in deviceId && QR_SEPARATOR !in hash
        && qrContent == Assemble(receiptId, deviceId, hash)
  {
    if ValidateQRFormat(qrContent) {
      ValidIsAssembled(qrContent);
      var parts := Split(qrContent, QR_SEPARATOR);
      assert qrContent == Assemble(parts[1], parts[2], parts[3]);
    }
    if exists receiptId, deviceId, hash ::
        && receiptId != [] && deviceId != [] && |hash| == 8
        && QR_SEPARATOR !in receiptId && QR_SEPARATOR !in deviceId && QR_SEPARATOR !in hash
        && qrContent == Assemble(receiptId, deviceId, hash) {
      var receiptId, deviceId, hash :|
        && receiptId != [] && deviceId != [] && |hash| == 8
        && QR_SEPARATOR !in receiptId && QR_SEPARATOR !in deviceId && QR_SEPARATOR !in hash
        && qrContent == Assemble(receiptId, deviceId, hash);
      AssembledIsValid(receiptId, deviceId, hash);
    }
  }

  /** extractReceiptId: the second part of a valid payload. */
  function ExtractReceiptId(qrContent: string): (r: Option<string>)
    ensures r.Some? <==> ValidateQRFormat(qrContent)
    ensures r.Some? ==> r.value != [] && QR_SEPARATOR !in r.value
  {
    if !ValidateQRFormat(qrContent) then None else Some(Split(qrContent, QR_SEPARATOR)[1])
  }

  /** extractDeviceId: the third part of a valid payload. */
  function ExtractDeviceId(qrContent: string): (r: Option<string>)
    ensures r.Some? <==> ValidateQRFormat(qrContent)
    ensures r.Some? ==> r.value != [] && QR_SEPARATOR !in r.value
  {
    if !ValidateQRFormat(qrContent) then None else Some(Split(qrContent, QR_SEPARATOR)[2])
  }

  /**
   * The payload of a receipt whose ids are non-empty and underscore-free
   * validates, and both ids are read back from it.
   */
  lemma QRRoundTrip(receiptId: string, deviceId: string, receiptData: string, digest: Digest)
    requires WellFormed(digest)
    requires receiptId != [] && deviceId != []
    requires QR_SEPARATOR !in receiptId && QR_SEPARATOR !in deviceId
    ensures var q := GenerateQRContent(receiptId, deviceId, receiptData, digest);
      && ValidateQRFormat(q)
      && ExtractReceiptId(q) == Some(receiptId)
      && ExtractDeviceId(q) == Some(deviceId)
  {
    var h := GenerateHash(receiptId + deviceId + receiptData, digest);
    AssembledIsValid(receiptId, deviceId, h);
  }

  /** An id with an underscore can never be read back: the extracted id is underscore-free. */
  lemma UnderscoreIdNotRecovered(receiptId: string, deviceId: string, receiptData: string, digest: Digest)
    requires WellFormed(digest)
    requires QR_SEPARATOR in receiptId
    ensures ExtractReceiptId(GenerateQRContent(receiptId, deviceId, receiptData, digest)) != Some(receiptId)
  {
  }

  // ---------------------------------------------------------------------------
  // ESC/POS thermal printer commands
  // ---------------------------------------------------------------------------

  const ESC := '\U{1B}'
  const GS := '\U{1D}'

  /** "GS ( k": the prefix of every two-dimensional symbol command. */
  const SYMBOL := [GS, '(', 'k']

  /** Function 165: select QR model 2. */
  const SET_MODEL := SYMBOL + ['\U{04}', '\U{00}', '\U{31}', 'A', '\U{02}', '\U{00}']

  /** Function 167: module size `n`. */
  function SetSize(n: char): string {
    SYMBOL + ['\U{03}', '\U{00}', '\U{31}', 'C', n]
  }

  /** Function 169: error correction level M. */
  const SET_ERROR_CORRECTION := SYMBOL + ['\U{03}', '\U{00}', '\U{31}', 'E', '\U{31}']

  /** Function 181: print the stored symbol. */
  const PRINT_SYMBOL := SYMBOL + ['\U{03}', '\U{00}', '\U{31}', 'Q', '\U{30}']

  /** "GS L 0 0": left margin zero. */
  const LEFT_MARGIN_ZERO := [GS, 'L', '\U{00}', '\U{00}']

  /**
   * The characters of a store-data command for `qrContent`: its two length
   * characters must be valid characters, so the content stays below the
   * surrogate range of the high length character.
   */
  predicate Storable(qrContent: string) {
    |qrContent| + 3 < 0xD800 * 256
  }

  /**
   * Function 180, store the symbol data: "GS ( k", the parameter length
   * (content plus the three bytes "1P0") as a low and a high byte, "1P0", and
   * the content itself.
   */
  function StoreData(qrContent: string): (d: string)
    requires Storable(qrContent)
    ensures |d| == |qrContent| + 8 && d[..3] == SYMBOL
    ensures d[3] as int < 256 && d[3] as int + 256 * d[4] as int == |qrContent| + 3
    ensures d[5..8] == ['\U{31}', 'P', '0'] && d[8..] == qrContent
  {
    var dataLength := |qrContent| + 3;
    SYMBOL + [(dataLength % 256) as char, (dataLength / 256) as char] + ['\U{31}', 'P', '0'] + qrContent
  }

  /**
   * A printer that reads the length field of a store-data command and takes that
   * many parameter bytes after "1P0" gets the content back exactly.
   */
  lemma StoreDataDecodes(qrContent: string)
    requires Storable(qrContent)
    ensures var d := StoreData(qrContent);
      var n := d[3] as int + 256 * d[4] as int - 3;
      0 <= n && 8 + n == |d| && d[8..8 + n] == qrContent
  {
  }

  /** The store-data command of the plain builder starts right after the three setup commands. */
  const PLAIN_SETUP := SET_MODEL + SetSize('\U{05}') + SET_ERROR_CORRECTION

  /** generateThermalPrinterQR: model 2, size 5, level M, store the content, print it. */
  method GenerateThermalPrinterQR(qrContent: string) returns (out: string)
    requires Storable(qrContent)
    ensures out == PLAIN_SETUP + StoreData(qrContent) + PRINT_SYMBOL
    ensures |out| == |PLAIN_SETUP| + |qrContent| + 16
    ensures out[|out| - |PRINT_SYMBOL|..] == PRINT_SYMBOL
  {
    var gs := [GS];
    CommandSpellings();
    out := "";
    out := out + (gs + "(k");
    out := out + "\U{04}\U{00}";
    out := out + "\U{31}A";
    out := out + "\U{02}\U{00}";
    Regroup("", gs + "(k", "\U{04}\U{00}", "\U{31}A", "\U{02}\U{00}");
    ghost var before := out;
    out := out + (gs + "(k");
    out := out + "\U{03}\U{00}";
    out := out + "\U{31}C";
    out := out + "\U{05}";
    Regroup(before, gs + "(k", "\U{03}\U{00}", "\U{31}C", "\U{05}");
    before := out;
    out := out + (gs + "(k");
    out := out + "\U{03}\U{00}";
    out := out + "\U{31}E";
    out := out + "\U{31}";
    Regroup(before, gs + "(k", "\U{03}\U{00}", "\U{31}E", "\U{31}");
    assert out == PLAIN_SETUP;
    var dataLength := |qrContent| + 3;
    var lengthLow := (dataLength % 256) as char;
    var lengthHigh := (dataLength / 256) as char;
    out := out + (gs + "(k");
    out := out + [lengthLow, lengthHigh];
    out := out + "\U{31}P0";
    out := out + qrContent;
    Regroup(PLAIN_SETUP, gs + "(k", [lengthLow, lengthHigh], "\U{31}P0", qrContent);
    assert gs + "(k" + [lengthLow, lengthHigh] + "\U{31}P0" + qrContent == StoreData(qrContent);
    before := out;
    out := out + (gs + "(k");
    out := out + "\U{03}\U{00}";
    out := out + "\U{31}Q";
    out := out + "\U{30}";
    Regroup(before, gs + "(k", "\U{03}\U{00}", "\U{31}Q", "\U{30}");
  }

  /** The receipt-number heading: right aligned, "#n" in bold, then a new line and left alignment. */
  function NumberHeading(receiptNumber: int32): string {
    [ESC, 'a', '\U{02}'] + [ESC, '!', '\U{30}'] + "#" + IntToString(receiptNumber)
      + [ESC, '!', '\U{00}', '\n'] + [ESC, 'a', '\U{00}']
  }

  /** The heading as the numbered builder spells it, in three appends. */
  lemma HeadingSpelling(receiptNumber: int32)
    ensures var esc := [ESC];
      "" + (esc + "a\U{02}") + (esc + "!\U{30}#" + IntToString(receiptNumber) + esc + "!\U{00}\n") + (esc + "a\U{00}")
        == NumberHeading(receiptNumber)
  {
  }

  /** Output that begins with a heading begins with the alignment and bold codes, then `#` and the number. */
  lemma HeadingPrefix(receiptNumber: int32, out: string)
    requires |NumberHeading(receiptNumber)| <= |out| && out[..|NumberHeading(receiptNumber)|] == NumberHeading(receiptNumber)
    ensures var n := IntToString(receiptNumber);
      && out[..6] == [ESC, 'a', '\U{02}', ESC, '!', '\U{30}']
      && out[6..7 + |n|] == "#" + n
  {
    var n := IntToString(receiptNumber);
    var codes := [ESC, 'a', '\U{02}', ESC, '!', '\U{30}'];
    var h := NumberHeading(receiptNumber);
    assert h == codes + ("#" + n) + ([ESC, '!', '\U{00}', '\n'] + [ESC, 'a', '\U{00}']);
    forall i | 0 <= i < |h|
      ensures out[i] == h[i]
    {
      assert out[..|h|][i] == out[i];
    }
    assert out[..6] == codes;
    assert out[6..7 + |n|] == "#" + n;
  }

  /**
   * generateThermalPrinterQRWithNumber: the bold receipt number on the right,
   * then the symbol on the left with the left margin forced to zero around the
   * print command.
   */
  method GenerateThermalPrinterQRWithNumber(qrContent: string, receiptNumber: int32) returns (out: string)
    requires Storable(qrContent)
    ensures out == NumberHeading(receiptNumber) + SET_MODEL + SetSize('\U{03}') + SET_ERROR_CORRECTION
                   + StoreData(qrContent) + LEFT_MARGIN_ZERO + PRINT_SYMBOL + LEFT_MARGIN_ZERO
    ensures out[..6] == [ESC, 'a', '\U{02}', ESC, '!', '\U{30}']
    ensures var n := IntToString(receiptNumber); out[6..7 + |n|] == "#" + n
  {
    var esc, gs := [ESC], [GS];
    CommandSpellings();
    out := "";
    out := out + (esc + "a\U{02}");
    out := out + (esc + "!\U{30}#" + IntToString(receiptNumber) + esc + "!\U{00}\n");
    out := out + (esc + "a\U{00}");
    HeadingSpelling(receiptNumber);
    ghost var expected := NumberHeading(receiptNumber);
    assert out == expected;
    ghost var before := out;
    out := out + (gs + "(k");
    out := out + "\U{04}\U{00}";
    out := out + "\U{31}A";
    out := out + "\U{02}\U{00}";
    Regroup(before, gs + "(k", "\U{04}\U{00}", "\U{31}A", "\U{02}\U{00}");
    expected := expected + SET_MODEL;
    assert out == expected;
    before := out;
    out := out + (gs + "(k");
    out := out + "\U{03}\U{00}";
    out := out + "\U{31}C";
    out := out + "\U{03}";
    Regroup(before, gs + "(k", "\U{03}\U{00}", "\U{31}C", "\U{03}");
    expected := expected + SetSize('\U{03}');
    assert out == expected;
    before := out;
    out := out + (gs + "(k");
    out := out + "\U{03}\U{00}";
    out := out + "\U{31}E";
    out := out + "\U{31}";
    Regroup(before, gs + "(k", "\U{03}\U{00}", "\U{31}E", "\U{31}");
    expected := expected + SET_ERROR_CORRECTION;
    assert out == expected;
    before := out;
    var dataLength := |qrContent| + 3;
    var lengthLow := (dataLength % 256) as char;
    var lengthHigh := (dataLength / 256) as char;
    out := out + (gs + "(k");
    out := out + [lengthLow, lengthHigh];
    out := out + "\U{31}P0";
    out := out + qrContent;
    Regroup(before, gs + "(k", [lengthLow, lengthHigh], "\U{31}P0", qrContent);
    assert gs + "(k" + [lengthLow, lengthHigh] + "\U{31}P0" + qrContent == StoreData(qrContent);
    expected := expected + StoreData(qrContent);
    assert out == expected;
    out := out + (gs + "L\U{00}\U{00}");
    expected := expected + LEFT_MARGIN_ZERO;
    assert out == expected;
    before := out;
    out := out + (gs + "(k");
    out := out + "\U{03}\U{00}";
    out := out + "\U{31}Q";
    out := out + "\U{30}";
    Regroup(before, gs + "(k", "\U{03}\U{00}", "\U{31}Q", "\U{30}");
    expected := expected + PRINT_SYMBOL;
    assert out == expected;
    out := out + (gs + "L\U{00}\U{00}");
    HeadingPrefix(receiptNumber, out);
  }

  /** The commands as the builders spell them, one append at a time. */
  lemma CommandSpellings()
    ensures [GS] + "(k" + "\U{04}\U{00}" + "\U{31}A" + "\U{02}\U{00}" == SET_MODEL
    ensures [GS] + "(k" + "\U{03}\U{00}" + "\U{31}C" + "\U{03}" == SetSize('\U{03}')
    ensures [GS] + "(k" + "\U{03}\U{00}" + "\U{31}C" + "\U{05}" == SetSize('\U{05}')
    ensures [GS] + "(k" + "\U{03}\U{00}" + "\U{31}E" + "\U{31}" == SET_ERROR_CORRECTION
    ensures [GS] + "(k" + "\U{03}\U{00}" + "\U{31}Q" + "\U{30}" == PRINT_SYMBOL
    ensures [GS] + "L\U{00}\U{00}" == LEFT_MARGIN_ZERO
  {
  }

  /** Four appends in a row append their concatenation. */
  lemma Regroup(s: string, a: string, b: string, c: string, d: string)
    ensures s + a + b + c + d == s + (a + b + c + d)
  {
  }
}
