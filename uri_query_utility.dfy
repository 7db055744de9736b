/**
 * Query-string handling: splitting a query string into name/value pairs,
 * form-urlencoding (section 17.13.4 of HTML 4.01) with the percent-encoding
 * of section 2.1 of RFC 3986 plus the non-standard %uXXXX escape, and
 * writing a collection back out as a query string.
 *
 * UTF-8 conversion is a parameter: `utf8Encode` turns text into bytes and
 * `utf8Decode` turns bytes into text. Characters are Unicode scalar values,
 * so a %uXXXX escape naming a UTF-16 surrogate code unit yields U+FFFD.
 */
module UriQueryUtility {
  import opened Common
  import NameValues

  type Byte = x: int | 0 <= x < 256

  /** A UTF-8 decoder never produces more characters than it is given bytes. */
  ghost predicate DecoderFits(utf8Decode: seq<Byte> -> string)
  {
    forall b: seq<Byte> :: |utf8Decode(b)| <= |b|
  }

  // ---------------------------------------------------------------------
  // Character classes and hex digits

  /** Letters, digits and ( ) * - . _ ! pass through the encoder unchanged. */
  predicate IsUrlSafeChar(ch: char)
  {
    ('a' <= ch <= 'z') || ('A' <= ch <= 'Z') || ('0' <= ch <= '9')
    || ch == '(' || ch == ')' || ch == '*' || ch == '-' || ch == '.' || ch == '_' || ch == '!'
  }

  predicate IsHexDigit(h: char)
  {
    ('0' <= h <= '9') || ('a' <= h <= 'f') || ('A' <= h <= 'F')
  }

  /** The value of a hex digit of either case, or -1 for any other character. */
  function HexToInt(h: char): (r: int)
    ensures -1 <= r < 16
    ensures r == -1 <==> !IsHexDigit(h)
  {
    if '0' <= h <= '9' then h as int - '0' as int
    else if 'a' <= h <= 'f' then h as int - 'a' as int + 10
    else if 'A' <= h <= 'F' then h as int - 'A' as int + 10
    else -1
  }

  /** The lower-case hex digit of a nibble (every caller passes a value masked to 0..15). */
  function IntToHex(n: int): (r: char)
    requires 0 <= n < 16
    ensures HexToInt(r) == n
    ensures IsUrlSafeChar(r) && ('0' <= r <= '9' || 'a' <= r <= 'f')
  {
    if n <= 9 then (n + 0x30) as char else (n - 10 + 0x61) as char
  }

  // ---------------------------------------------------------------------
  // Encoding

  /** A byte the encoder escapes as %hh: neither URL-safe nor a space. */
  predicate IsEscaped(b: Byte)
  {
    !IsUrlSafeChar(b as char) && b != 0x20
  }

  /** The encoding of one byte: itself when safe, '+' for a space, else '%' and two lower-case hex digits. */
  function EncodeByte(b: Byte): (r: seq<Byte>)
    ensures |r| == if IsEscaped(b) then 3 else 1
  {
    if IsUrlSafeChar(b as char) then [b]
    else if b == 0x20 then ['+' as int]
    else [0x25, IntToHex(b / 16) as int, IntToHex(b % 16) as int]
  }

  function EscapedCount(bytes: seq<Byte>): nat
  {
    if bytes == [] then 0
    else EscapedCount(bytes[..|bytes| - 1]) + (if IsEscaped(bytes[|bytes| - 1]) then 1 else 0)
  }

  function SpaceCount(bytes: seq<Byte>): nat
  {
    if bytes == [] then 0
    else SpaceCount(bytes[..|bytes| - 1]) + (if bytes[|bytes| - 1] == 0x20 then 1 else 0)
  }

  /** The encoded bytes: each input byte's encoding, in order; two extra bytes per escaped byte. */
  function EncodeBytes(bytes: seq<Byte>): (r: seq<Byte>)
    ensures |r| == |bytes| + 2 * EscapedCount(bytes)
  {
    if bytes == [] then []
    else EncodeBytes(bytes[..|bytes| - 1]) + EncodeByte(bytes[|bytes| - 1])
  }

  /** Encoding distributes over concatenation. */
  lemma {:induction false} EncodeBytesAppend(a: seq<Byte>, b: seq<Byte>)
    ensures EncodeBytes(a + b) == EncodeBytes(a) + EncodeBytes(b)
    decreases |b|
  {
    if b == [] {
      assert a + b == a;
      assert EncodeBytes(b) == [];
    } else {
      var init, last := b[..|b| - 1], b[|b| - 1];
      assert (a + b)[..|a + b| - 1] == a + init;
      assert (a + b)[|a + b| - 1] == last;
      assert EncodeBytes(a + b) == EncodeBytes(a + init) + EncodeByte(last);
      assert EncodeBytes(b) == EncodeBytes(init) + EncodeByte(last);
      EncodeBytesAppend(a, init);
      AppendAssociates(EncodeBytes(a), EncodeBytes(init), EncodeByte(last));
    }
  }

  /** With no space and nothing to escape, the encoding is the input itself. */
  lemma {:induction false} NothingToEncode(bytes: seq<Byte>)
    requires EscapedCount(bytes) == 0 && SpaceCount(bytes) == 0
    ensures EncodeBytes(bytes) == bytes
    decreases |bytes|
  {
    if bytes != [] {
      NothingToEncode(bytes[..|bytes| - 1]);
    }
  }

  /** Every encoded byte is an ASCII character that is URL-safe, '+' or '%'. */
  lemma {:induction false} EncodedBytesAreSafeAscii(bytes: seq<Byte>)
    ensures forall i :: 0 <= i < |EncodeBytes(bytes)| ==>
              EncodeBytes(bytes)[i] < 0x80
              && (IsUrlSafeChar(EncodeBytes(bytes)[i] as char) || EncodeBytes(bytes)[i] == 0x2B || EncodeBytes(bytes)[i] == 0x25)
    decreases |bytes|
  {
    if bytes != [] {
      EncodedBytesAreSafeAscii(bytes[..|bytes| - 1]);
    }
  }

  /**
   * The encoder over bytes[offset..offset+count]. A null array with a zero
   * count gives null; other bad arguments throw. When nothing needs
   * encoding the input array itself is returned; otherwise a new array of
   * count + 2 * (escaped bytes) bytes holding the encoding.
   */
  method UrlEncodeBytes(bytes: array?<Byte>, offset: int, count: int) returns (r: Result<Option<array<Byte>>>)
    ensures bytes == null && count == 0 ==> r == Ok(None)
    ensures bytes == null && count != 0 ==> r == Err(ArgumentNull("bytes"))
    ensures bytes != null && (offset < 0 || offset > bytes.Length) ==> r == Err(ArgumentOutOfRange("offset"))
    ensures (bytes != null && 0 <= offset <= bytes.Length && (count < 0 || offset + count > bytes.Length)) ==>
              r == Err(ArgumentOutOfRange("count"))
    ensures (bytes != null && 0 <= offset && 0 <= count && offset + count <= bytes.Length) ==>
              var input := bytes[offset..offset + count];
              && r.Ok? && r.value.Some?
              && (EscapedCount(input) == 0 && SpaceCount(input) == 0 ==> r.value.value == bytes)
              && (EscapedCount(input) != 0 || SpaceCount(input) != 0 ==>
                    fresh(r.value.value) && r.value.value[..] == EncodeBytes(input))
  {
    if bytes == null && count == 0 {
      return Ok(None);
    }
    if bytes == null {
      return Err(ArgumentNull("bytes"));
    }
    if offset < 0 || offset > bytes.Length {
      return Err(ArgumentOutOfRange("offset"));
    }
    if count < 0 || offset + count > bytes.Length {
      return Err(ArgumentOutOfRange("count"));
    }
    var spaces, escaped := CountEncoding(bytes, offset, count);
    if spaces == 0 && escaped == 0 {
      return Ok(Some(bytes));
    }
    var buffer := WriteEncoding(bytes, offset, count, escaped);
    return Ok(Some(buffer));
  }

  /** The encoder's first pass: the spaces and the bytes to escape in the range. */
  method CountEncoding(bytes: array<Byte>, offset: nat, count: nat) returns (spaces: nat, escaped: nat)
    requires offset + count <= bytes.Length
    ensures spaces == SpaceCount(bytes[offset..offset + count])
    ensures escaped == EscapedCount(bytes[offset..offset + count])
  {
    ghost var input := bytes[offset..offset + count];
    spaces := 0;
    escaped := 0;
    for i := 0 to count
      invariant spaces == SpaceCount(input[..i]) && escaped == EscapedCount(input[..i])
    {
      assert input[..i + 1][..i] == input[..i];
      var ch := bytes[offset + i] as char;
      if ch == ' ' {
        spaces := spaces + 1;
      } else if !IsUrlSafeChar(ch) {
        escaped := escaped + 1;
      }
    }
    assert input[..count] == input;
  }

  /** The encoder's second pass: a new array holding the encoding of the range. */
  method WriteEncoding(bytes: array<Byte>, offset: nat, count: nat, escaped: nat) returns (buffer: array<Byte>)
    requires offset + count <= bytes.Length
    requires escaped == EscapedCount(bytes[offset..offset + count])
    ensures fresh(buffer) && buffer[..] == EncodeBytes(bytes[offset..offset + count])
  {
    ghost var input := bytes[offset..offset + count];
    buffer := new Byte[count + escaped * 2];
    var pos := 0;
    for j := 0 to count
      invariant pos == j + 2 * EscapedCount(input[..j])
      invariant pos <= buffer.Length
      invariant buffer[..pos] == EncodeBytes(input[..j])
    {
      EncodePrefixStep(input, j);
      EscapedCountMonotone(input, j + 1);
      assert bytes[offset + j] == input[j];
      pos := PutEncoded(buffer, pos, bytes[offset + j]);
    }
    assert input[..count] == input;
    assert buffer[..] == buffer[..pos];
  }

  /** Writes one byte's encoding at pos: the byte itself, '+' for a space, or %hh. */
  method PutEncoded(buffer: array<Byte>, pos: nat, b: Byte) returns (next: nat)
    requires pos + |EncodeByte(b)| <= buffer.Length
    modifies buffer
    ensures next == pos + |EncodeByte(b)|
    ensures buffer[..next] == old(buffer[..pos]) + EncodeByte(b)
  {
    var ch := b as char;
    if IsUrlSafeChar(ch) {
      buffer[pos] := b;
      next := pos + 1;
    } else if ch == ' ' {
      buffer[pos] := 0x2B;
      next := pos + 1;
    } else {
      buffer[pos] := 0x25;
      buffer[pos + 1] := IntToHex(b / 16) as int;
      buffer[pos + 2] := IntToHex(b % 16) as int;
      next := pos + 3;
    }
  }

  /** One more input byte adds its encoding, and one escape if it is escaped. */
  lemma EncodePrefixStep(input: seq<Byte>, j: nat)
    requires j < |input|
    ensures EncodeBytes(input[..j + 1]) == EncodeBytes(input[..j]) + EncodeByte(input[j])
    ensures EscapedCount(input[..j + 1]) == EscapedCount(input[..j]) + (if IsEscaped(input[j]) then 1 else 0)
  {
    assert input[..j + 1][..j] == input[..j];
  }

  /** The escaped bytes of a prefix are at most those of the whole. */
  lemma {:induction false} EscapedCountMonotone(bytes: seq<Byte>, k: nat)
    requires k <= |bytes|
    ensures EscapedCount(bytes[..k]) <= EscapedCount(bytes)
    decreases |bytes| - k
  {
    if k < |bytes| {
      assert bytes[..k + 1][..k] == bytes[..k];
      EscapedCountMonotone(bytes, k + 1);
    } else {
      assert bytes[..k] == bytes;
    }
  }

  /**
   * The encoder with the option of never handing back the caller's array:
   * when asked to, an unchanged input comes back as a copy.
   */
  method UrlEncodeBytesCopying(bytes: array?<Byte>, offset: int, count: int, alwaysCreateNewReturnValue: bool)
    returns (r: Result<Option<array<Byte>>>)
    ensures (bytes != null && 0 <= offset && 0 <= count && offset + count <= bytes.Length) ==>
              && r.Ok? && r.value.Some?
              && (alwaysCreateNewReturnValue ==> r.value.value != bytes)
              && r.value.value[..] == (if EscapedCount(bytes[offset..offset + count]) == 0 && SpaceCount(bytes[offset..offset + count]) == 0
                                       then bytes[..] else EncodeBytes(bytes[offset..offset + count]))
    ensures !(bytes != null && 0 <= offset && 0 <= count && offset + count <= bytes.Length) ==>
              var plain := if bytes == null && count == 0 then Ok(None)
                           else if bytes == null then Err(ArgumentNull("bytes"))
                           else if offset < 0 || offset > bytes.Length then Err(ArgumentOutOfRange("offset"))
                           else Err(ArgumentOutOfRange("count"));
              r == plain
  {
    r := UrlEncodeBytes(bytes, offset, count);
    if alwaysCreateNewReturnValue && r.Ok? && r.value.Some? && r.value.value == bytes {
      var source := r.value.value;
      var copy := new Byte[source.Length](i requires 0 <= i < source.Length reads source => source[i]);
      r := Ok(Some(copy));
    }
  }

  /** Encoding.ASCII.GetString: bytes above 0x7F become '?'. */
  function AsciiText(bytes: seq<Byte>): (r: string)
    ensures |r| == |bytes|
  {
    if bytes == [] then ""
    else AsciiText(bytes[..|bytes| - 1]) + [if bytes[|bytes| - 1] < 0x80 then bytes[|bytes| - 1] as char else '?']
  }

  lemma {:induction false} AsciiTextAt(bytes: seq<Byte>, i: nat)
    requires i < |bytes|
    ensures AsciiText(bytes)[i] == if bytes[i] < 0x80 then bytes[i] as char else '?'
    decreases |bytes|
  {
    if i < |bytes| - 1 {
      AsciiTextAt(bytes[..|bytes| - 1], i);
    }
  }

  /** The form-urlencoding of a string: its UTF-8 bytes encoded and read back as ASCII. */
  function UrlEncodeText(s: string, utf8Encode: string -> seq<Byte>): string
  {
    AsciiText(EncodeBytes(utf8Encode(s)))
  }

  /** UrlEncode(string): null stays null. */
  method UrlEncode(str: Option<string>, utf8Encode: string -> seq<Byte>) returns (r: Option<string>)
    ensures str.None? ==> r.None?
    ensures str.Some? ==> r == Some(UrlEncodeText(str.value, utf8Encode))
  {
    if str.None? {
      return None;
    }
    var bytes := utf8Encode(str.value);
    var a := new Byte[|bytes|](i requires 0 <= i < |bytes| => bytes[i]);
    assert a[..] == bytes;
    var encoded := UrlEncodeBytes(a, 0, a.Length);
    assert a[0..a.Length] == bytes;
    var e := encoded.value.value;
    if e == a {
      NothingToEncode(bytes);
    }
    r := Some(AsciiText(e[..]));
  }

  // ---------------------------------------------------------------------
  // Decoding

  /** What one step of the decoding loop hands to the decoder: a byte or a character. */
  datatype Piece = ByteOf(b: Byte) | CharOf(c: char)

  /** The character of a %uXXXX escape; a surrogate code unit has no scalar value and becomes U+FFFD. */
  function CodeUnitChar(code: int): char
    requires 0 <= code < 0x10000
  {
    if 0xD800 <= code < 0xE000 then '�' else code as char
  }

  /** Whether value[pos..pos+6] is a well-formed %uXXXX escape the decoder accepts. */
  predicate IsUnicodeEscape(value: string, pos: nat)
  {
    && pos < |value| && value[pos] == '%' && pos < |value| - 2 && value[pos + 1] == 'u' && pos < |value| - 5
    && IsHexDigit(value[pos + 2]) && IsHexDigit(value[pos + 3]) && IsHexDigit(value[pos + 4]) && IsHexDigit(value[pos + 5])
  }

  /** Whether value[pos..pos+3] is a well-formed %hh escape the decoder accepts. */
  predicate IsByteEscape(value: string, pos: nat)
  {
    pos < |value| && value[pos] == '%' && pos < |value| - 2 && IsHexDigit(value[pos + 1]) && IsHexDigit(value[pos + 2])
  }

  /**
   * One step of the decoding loop: the piece found at pos and the position
   * after it. '+' is a space byte, %uXXXX one character, %hh one byte; any
   * other character, including a malformed escape's '%', stands for itself
   * (as a byte when it is ASCII).
   */
  function ScanPiece(value: string, pos: nat): (r: (Piece, nat))
    requires pos < |value|
    ensures pos < r.1 <= |value|
  {
    var ch := value[pos];
    if ch == '+' then (ByteOf(0x20), pos + 1)
    else if IsUnicodeEscape(value, pos) then
      var code := HexToInt(value[pos + 2]) * 0x1000 + HexToInt(value[pos + 3]) * 0x100
                  + HexToInt(value[pos + 4]) * 0x10 + HexToInt(value[pos + 5]);
      (CharOf(CodeUnitChar(code)), pos + 6)
    else if IsByteEscape(value, pos) then
      (ByteOf(HexToInt(value[pos + 1]) * 16 + HexToInt(value[pos + 2])), pos + 3)
    else if ch as int < 0x80 then (ByteOf(ch as int), pos + 1)
    else (CharOf(ch), pos + 1)
  }

  /** The pieces from pos to the end of the value. */
  function Pieces(value: string, pos: nat): seq<Piece>
    requires pos <= |value|
    decreases |value| - pos
  {
    if pos == |value| then []
    else
      var (piece, next) := ScanPiece(value, pos);
      [piece] + Pieces(value, next)
  }

  /** The decoder's content: the characters so far and the bytes not yet decoded. */
  datatype DecoderState = DecoderState(chars: string, bytes: seq<Byte>)

  const EmptyDecoder := DecoderState("", [])

  /** The characters after decoding any pending bytes. */
  function Flushed(s: DecoderState, utf8Decode: seq<Byte> -> string): string
  {
    if |s.bytes| > 0 then s.chars + utf8Decode(s.bytes) else s.chars
  }

  /** A byte waits for decoding; a character first decodes the waiting bytes. */
  function Push(s: DecoderState, piece: Piece, utf8Decode: seq<Byte> -> string): DecoderState
  {
    match piece
      case ByteOf(b) => DecoderState(s.chars, s.bytes + [b])
      case CharOf(c) => DecoderState(Flushed(s, utf8Decode) + [c], [])
  }

  function Feed(s: DecoderState, pieces: seq<Piece>, utf8Decode: seq<Byte> -> string): DecoderState
    decreases |pieces|
  {
    if pieces == [] then s else Feed(Push(s, pieces[0], utf8Decode), pieces[1..], utf8Decode)
  }

  /** UrlDecode(value): the pieces fed through the decoder, then flushed. */
  function UrlDecodeText(value: string, utf8Decode: seq<Byte> -> string): string
  {
    Flushed(Feed(EmptyDecoder, Pieces(value, 0), utf8Decode), utf8Decode)
  }

  /**
   * The decoder's buffers: bytes wait in byteBuffer (allocated on first
   * use) until a character or the end forces them through the UTF-8
   * decoder into charBuffer.
   */
  class UrlDecoder {
    const bufferSize: nat
    const utf8Decode: seq<Byte> -> string
    var byteBuffer: array?<Byte>
    const charBuffer: array<char>
    var numBytes: nat
    var numChars: nat

    ghost predicate Valid()
      reads this, byteBuffer
    {
      && charBuffer.Length == bufferSize
      && (byteBuffer != null ==> byteBuffer.Length == bufferSize)
      && (byteBuffer == null ==> numBytes == 0)
      && numChars <= bufferSize && numBytes <= bufferSize
      && DecoderFits(utf8Decode)
    }

    /** The decoder's content as a value. */
    function State(): DecoderState
      requires Valid()
      reads this, byteBuffer, charBuffer
    {
      DecoderState(charBuffer[..numChars], if byteBuffer == null then [] else byteBuffer[..numBytes])
    }

    constructor(bufferSize: nat, utf8Decode: seq<Byte> -> string)
      requires DecoderFits(utf8Decode)
      ensures Valid() && fresh(charBuffer) && byteBuffer == null
      ensures this.bufferSize == bufferSize && this.utf8Decode == utf8Decode
      ensures State() == EmptyDecoder
    {
      this.bufferSize := bufferSize;
      this.utf8Decode := utf8Decode;
      charBuffer := new char[bufferSize];
      byteBuffer := null;
      numBytes := 0;
      numChars := 0;
    }

    method AddByte(b: Byte)
      requires Valid() && numBytes < bufferSize
      modifies this, byteBuffer
      ensures Valid()
      ensures old(byteBuffer) != null ==> byteBuffer == old(byteBuffer)
      ensures old(byteBuffer) == null ==> fresh(byteBuffer)
      ensures numChars == old(numChars) && numBytes == old(numBytes) + 1
      ensures State() == Push(old(State()), ByteOf(b), utf8Decode)
    {
      if byteBuffer == null {
        byteBuffer := new Byte[bufferSize];
      }
      byteBuffer[numBytes] := b;
      numBytes := numBytes + 1;
    }

    method FlushBytes()
      requires Valid() && numChars + numBytes <= bufferSize
      modifies this, charBuffer
      ensures Valid() && byteBuffer == old(byteBuffer) && numBytes == 0
      ensures numChars <= old(numChars) + old(numBytes)
      ensures State() == DecoderState(Flushed(old(State()), utf8Decode), [])
    {
      if numBytes > 0 {
        var decoded := utf8Decode(byteBuffer[..numBytes]);
        assert |decoded| <= numBytes;
        forall i | 0 <= i < |decoded| {
          charBuffer[numChars + i] := decoded[i];
        }
        assert charBuffer[..numChars + |decoded|] == old(charBuffer[..numChars]) + decoded;
        numChars := numChars + |decoded|;
        numBytes := 0;
      }
    }

    method AddChar(ch: char)
      requires Valid() && numChars + numBytes < bufferSize
      modifies this, charBuffer
      ensures Valid() && byteBuffer == old(byteBuffer) && numBytes == 0
      ensures numChars <= old(numChars) + old(numBytes) + 1
      ensures State() == Push(old(State()), CharOf(ch), utf8Decode)
    {
      if numBytes > 0 {
        FlushBytes();
      }
      charBuffer[numChars] := ch;
      numChars := numChars + 1;
    }

    method GetString() returns (r: string)
      requires Valid() && numChars + numBytes <= bufferSize
      modifies this, charBuffer
      ensures r == Flushed(old(State()), utf8Decode)
    {
      if numBytes > 0 {
        FlushBytes();
      }
      if numChars > 0 {
        return charBuffer[..numChars];
      }
      return "";
    }
  }

  lemma FeedStep(s: DecoderState, piece: Piece, rest: seq<Piece>, utf8Decode: seq<Byte> -> string)
    ensures Feed(s, [piece] + rest, utf8Decode) == Feed(Push(s, piece, utf8Decode), rest, utf8Decode)
  {
    assert ([piece] + rest)[1..] == rest;
  }

  /** The decoding loop: one piece per step, a buffer of the input's length. */
  method UrlDecodeInternal(value: Option<string>, utf8Decode: seq<Byte> -> string) returns (r: Option<string>)
    requires DecoderFits(utf8Decode)
    ensures value.None? ==> r.None?
    ensures value.Some? ==> r == Some(UrlDecodeText(value.value, utf8Decode))
  {
    if value.None? {
      return None;
    }
    var text := value.value;
    var count := |text|;
    var decoder := new UrlDecoder(count, utf8Decode);
    var pos := 0;
    while pos < count
      invariant 0 <= pos <= count
      invariant decoder.Valid() && decoder.bufferSize == count && decoder.utf8Decode == utf8Decode
      invariant fresh(decoder) && fresh(decoder.charBuffer) && (decoder.byteBuffer == null || fresh(decoder.byteBuffer))
      invariant decoder.numChars + decoder.numBytes <= pos
      invariant Feed(decoder.State(), Pieces(text, pos), utf8Decode) == Feed(EmptyDecoder, Pieces(text, 0), utf8Decode)
      decreases count - pos
    {
      var (piece, next) := ScanPiece(text, pos);
      FeedStep(decoder.State(), piece, Pieces(text, next), utf8Decode);
      var ch := text[pos];
      if ch == '+' {
        decoder.AddByte(0x20);
      } else if IsUnicodeEscape(text, pos) {
        var code := HexToInt(text[pos + 2]) * 0x1000 + HexToInt(text[pos + 3]) * 0x100
                    + HexToInt(text[pos + 4]) * 0x10 + HexToInt(text[pos + 5]);
        decoder.AddChar(CodeUnitChar(code));
      } else if IsByteEscape(text, pos) {
        decoder.AddByte(HexToInt(text[pos + 1]) * 16 + HexToInt(text[pos + 2]));
      } else if ch as int < 0x80 {
        decoder.AddByte(ch as int);
      } else {
        decoder.AddChar(ch);
      }
      pos := next;
    }
    var s := decoder.GetString();
    r := Some(s);
  }

  /** UrlDecode(string): null stays null. */
  method UrlDecode(str: Option<string>, utf8Decode: seq<Byte> -> string) returns (r: Option<string>)
    requires DecoderFits(utf8Decode)
    ensures str.None? ==> r.None?
    ensures str.Some? ==> r == Some(UrlDecodeText(str.value, utf8Decode))
  {
    r := UrlDecodeInternal(str, utf8Decode);
  }

  /** The pieces of a byte sequence: one ByteOf per byte. */
  function BytePieces(bytes: seq<Byte>): (r: seq<Piece>)
    ensures |r| == |bytes| && forall i :: 0 <= i < |bytes| ==> r[i] == ByteOf(bytes[i])
  {
    if bytes == [] then [] else [ByteOf(bytes[0])] + BytePieces(bytes[1..])
  }

  lemma PiecesStep(value: string, pos: nat)
    requires pos < |value|
    ensures Pieces(value, pos) == [ScanPiece(value, pos).0] + Pieces(value, ScanPiece(value, pos).1)
  {
  }

  /** Scanning inside a suffix does not depend on what precedes it. */
  lemma ScanPieceShift(prefix: string, rest: string, j: nat)
    requires j < |rest|
    ensures ScanPiece(prefix + rest, |prefix| + j) == (ScanPiece(rest, j).0, ScanPiece(rest, j).1 + |prefix|)
  {
    var v := prefix + rest;
    assert forall k :: j <= k < |rest| ==> v[|prefix| + k] == rest[k];
    assert IsUnicodeEscape(v, |prefix| + j) == IsUnicodeEscape(rest, j);
    assert IsByteEscape(v, |prefix| + j) == IsByteEscape(rest, j);
  }

  /** The pieces of a suffix do not depend on what precedes it. */
  lemma {:induction false} PiecesOfSuffix(prefix: string, rest: string, j: nat)
    requires j <= |rest|
    ensures Pieces(prefix + rest, |prefix| + j) == Pieces(rest, j)
    decreases |rest| - j
  {
    var v := prefix + rest;
    if j < |rest| {
      var next := ScanPiece(rest, j).1;
      ScanPieceShift(prefix, rest, j);
      PiecesStep(v, |prefix| + j);
      PiecesStep(rest, j);
      PiecesOfSuffix(prefix, rest, next);
      assert Pieces(v, |prefix| + j) == [ScanPiece(rest, j).0] + Pieces(v, |prefix| + next);
    } else {
      assert |prefix| + j == |v|;
    }
  }

  /** Decoding the ASCII text of encoded bytes yields exactly those bytes, one piece each. */
  lemma {:induction false} DecodeEncodedBytes(bytes: seq<Byte>)
    ensures Pieces(AsciiText(EncodeBytes(bytes)), 0) == BytePieces(bytes)
    decreases |bytes|
  {
    if bytes != [] {
      var b := bytes[0];
      var rest := bytes[1..];
      EncodeFirst(bytes);
      var head := AsciiText(EncodeByte(b));
      var tail := AsciiText(EncodeBytes(rest));
      AsciiTextAppend(EncodeByte(b), EncodeBytes(rest));
      ScanEncodedByte(b, tail);
      PiecesStep(head + tail, 0);
      PiecesOfSuffix(head, tail, 0);
      DecodeEncodedBytes(rest);
    }
  }

  /** The encoding of a non-empty sequence starts with the encoding of its first byte. */
  lemma EncodeFirst(bytes: seq<Byte>)
    requires bytes != []
    ensures EncodeBytes(bytes) == EncodeByte(bytes[0]) + EncodeBytes(bytes[1..])
  {
    var b := bytes[0];
    assert [b] + bytes[1..] == bytes;
    EncodeBytesAppend([b], bytes[1..]);
    EncodeSingle(b);
  }

  /** A single byte encodes as that byte's encoding. */
  lemma EncodeSingle(b: Byte)
    ensures EncodeBytes([b]) == EncodeByte(b)
  {
    assert [b][..0] == [] && [b][0] == b;
    assert EncodeBytes([b]) == EncodeBytes([]) + EncodeByte(b);
    assert EncodeBytes([]) + EncodeByte(b) == EncodeByte(b);
  }

  lemma {:induction false} AsciiTextAppend(a: seq<Byte>, b: seq<Byte>)
    ensures AsciiText(a + b) == AsciiText(a) + AsciiText(b)
  {
    forall i | 0 <= i < |a + b|
      ensures AsciiText(a + b)[i] == (AsciiText(a) + AsciiText(b))[i]
    {
      AsciiTextAt(a + b, i);
      if i < |a| {
        AsciiTextAt(a, i);
      } else {
        AsciiTextAt(b, i - |a|);
      }
    }
  }

  /** The encoding of one byte, followed by anything, scans back as that byte and nothing more. */
  lemma ScanEncodedByte(b: Byte, rest: string)
    ensures |AsciiText(EncodeByte(b))| <= |AsciiText(EncodeByte(b)) + rest|
    ensures ScanPiece(AsciiText(EncodeByte(b)) + rest, 0) == (ByteOf(b), |AsciiText(EncodeByte(b))|)
  {
    var text := AsciiText(EncodeByte(b)) + rest;
    forall i | 0 <= i < |EncodeByte(b)| {
      AsciiTextAt(EncodeByte(b), i);
    }
    if IsUrlSafeChar(b as char) {
      assert text[0] == b as char;
    } else if b == 0x20 {
      assert text[0] == '+';
    } else {
      var hi := IntToHex(b / 16);
      var lo := IntToHex(b % 16);
      assert text[0] == '%' && text[1] == hi && text[2] == lo;
      assert !IsUnicodeEscape(text, 0);
      assert IsByteEscape(text, 0);
    }
  }

  /** Feeding only bytes appends them to the waiting bytes. */
  lemma {:induction false} FeedBytes(st: DecoderState, bytes: seq<Byte>, utf8Decode: seq<Byte> -> string)
    ensures Feed(st, BytePieces(bytes), utf8Decode) == DecoderState(st.chars, st.bytes + bytes)
    decreases |bytes|
  {
    if bytes == [] {
      assert BytePieces(bytes) == [];
      assert st.bytes + bytes == st.bytes;
    } else {
      var pieces := BytePieces(bytes);
      var next := Push(st, ByteOf(bytes[0]), utf8Decode);
      assert pieces[0] == ByteOf(bytes[0]) && pieces[1..] == BytePieces(bytes[1..]);
      assert Feed(st, pieces, utf8Decode) == Feed(next, BytePieces(bytes[1..]), utf8Decode);
      assert next == DecoderState(st.chars, st.bytes + [bytes[0]]);
      FeedBytes(next, bytes[1..], utf8Decode);
      AppendAssociates(st.bytes, [bytes[0]], bytes[1..]);
      assert [bytes[0]] + bytes[1..] == bytes;
    }
  }

  /**
   * Round trip: decoding the form-urlencoding of a string gives back the
   * UTF-8 decoding of its UTF-8 bytes (the empty text when there are none).
   */
  lemma UrlDecodeOfUrlEncode(s: string, utf8Encode: string -> seq<Byte>, utf8Decode: seq<Byte> -> string)
    ensures UrlDecodeText(UrlEncodeText(s, utf8Encode), utf8Decode)
            == if utf8Encode(s) == [] then "" else utf8Decode(utf8Encode(s))
  {
    var bytes := utf8Encode(s);
    DecodeEncodedBytes(bytes);
    FeedBytes(EmptyDecoder, bytes, utf8Decode);
    assert EmptyDecoder.bytes + bytes == bytes;
  }

  /** A '%' that starts no well-formed escape is kept as the byte '%'. */
  lemma MalformedEscapeIsLiteral(value: string, pos: nat)
    requires pos < |value| && value[pos] == '%'
    requires !IsUnicodeEscape(value, pos) && !IsByteEscape(value, pos)
    ensures ScanPiece(value, pos) == (ByteOf(0x25), pos + 1)
  {
  }

  // ---------------------------------------------------------------------
  // Query strings

  /** The first '&' at or after i, or the end. */
  function SegmentEnd(s: string, i: nat): (r: nat)
    requires i <= |s|
    ensures i <= r <= |s|
    ensures r < |s| ==> s[r] == '&'
    ensures forall k :: i <= k < r ==> s[k] != '&'
    decreases |s| - i
  {
    if i == |s| || s[i] == '&' then i else SegmentEnd(s, i + 1)
  }

  /** One segment's key and value: split at the first '='; without one, the key is "" and the value is the segment. */
  function KeyValue(segment: string): (string, string)
  {
    var eq := IndexOfChar(segment, '=');
    if eq < 0 then ("", segment) else (segment[..eq], segment[eq + 1..])
  }

  /**
   * The pairs found from position i: the segment up to the next '&', then,
   * if that '&' ends the text, an empty pair, and otherwise the pairs after it.
   */
  function FillFrom(s: string, i: nat): seq<(string, string)>
    requires i < |s|
    decreases |s| - i
  {
    var e := SegmentEnd(s, i);
    var pair := KeyValue(s[i..e]);
    if e + 1 < |s| then [pair] + FillFrom(s, e + 1)
    else if e + 1 == |s| then [pair, ("", "")]
    else [pair]
  }

  /** The pairs of a query string (none for the empty string). */
  function Pairs(s: string): seq<(string, string)>
  {
    if s == "" then [] else FillFrom(s, 0)
  }

  /** The text split at every '&' (the reference for the pairs). */
  function SplitAtAmpersand(s: string): (r: seq<string>)
    ensures |r| >= 1
    decreases |s|
  {
    var k := IndexOfChar(s, '&');
    if k < 0 then [s] else [s[..k]] + SplitAtAmpersand(s[k + 1..])
  }

  function CountAmpersands(s: string): nat
  {
    if s == "" then 0 else (if s[0] == '&' then 1 else 0) + CountAmpersands(s[1..])
  }

  function MapKeyValue(segments: seq<string>): (r: seq<(string, string)>)
    ensures |r| == |segments|
  {
    if segments == [] then [] else [KeyValue(segments[0])] + MapKeyValue(segments[1..])
  }

  /** From any position, the pairs are the key/value splits of the '&'-separated segments of the rest. */
  lemma {:induction false} FillFromIsSplit(s: string, i: nat)
    requires i < |s|
    ensures FillFrom(s, i) == MapKeyValue(SplitAtAmpersand(s[i..]))
    decreases |s| - i
  {
    var e := SegmentEnd(s, i);
    SegmentEndIsIndexOf(s, i);
    if e == |s| {
      assert s[i..e] == s[i..];
      MapKeyValueCons(s[i..], []);
    } else {
      SplitAtSegmentEnd(s, i);
      MapKeyValueCons(s[i..e], SplitAtAmpersand(s[e + 1..]));
      if e + 1 < |s| {
        FillFromIsSplit(s, e + 1);
      } else {
        assert s[e + 1..] == "";
        assert KeyValue("") == ("", "");
        MapKeyValueCons("", []);
      }
    }
  }

  lemma SplitAtSegmentEnd(s: string, i: nat)
    requires i <= |s| && SegmentEnd(s, i) < |s|
    ensures SplitAtAmpersand(s[i..]) == [s[i..SegmentEnd(s, i)]] + SplitAtAmpersand(s[SegmentEnd(s, i) + 1..])
  {
    var e := SegmentEnd(s, i);
    var t := s[i..];
    SegmentEndIsIndexOf(s, i);
    SplitAtFirst(t, e - i);
    assert t[..e - i] == s[i..e];
    assert t[e - i + 1..] == s[e + 1..];
  }

  lemma SplitAtFirst(t: string, k: int)
    requires 0 <= k && IndexOfChar(t, '&') == k
    ensures SplitAtAmpersand(t) == [t[..k]] + SplitAtAmpersand(t[k + 1..])
  {
  }

  /** The end of the segment at i is where the first '&' of the rest lies. */
  lemma SegmentEndIsIndexOf(s: string, i: nat)
    requires i <= |s|
    ensures IndexOfChar(s[i..], '&') == if SegmentEnd(s, i) == |s| then -1 else SegmentEnd(s, i) - i
  {
    var e := SegmentEnd(s, i);
    var t := s[i..];
    assert forall j :: 0 <= j < |t| ==> t[j] == s[i + j];
    if e < |s| {
      assert t[e - i] == '&';
    }
  }

  lemma MapKeyValueCons(x: string, rest: seq<string>)
    ensures MapKeyValue([x] + rest) == [KeyValue(x)] + MapKeyValue(rest)
  {
    assert ([x] + rest)[1..] == rest;
  }

  /**
   * A non-empty query string gives one pair per '&'-separated segment (so a
   * trailing '&' adds an empty pair): one more pair than it has '&'s.
   */
  lemma PairsAreSegments(s: string)
    requires s != ""
    ensures Pairs(s) == MapKeyValue(SplitAtAmpersand(s))
    ensures |Pairs(s)| == CountAmpersands(s) + 1
  {
    FillFromIsSplit(s, 0);
    assert s[0..] == s;
    SplitCount(s);
  }

  lemma {:induction false} SplitCount(s: string)
    ensures |SplitAtAmpersand(s)| == CountAmpersands(s) + 1
    decreases |s|
  {
    var k := IndexOfChar(s, '&');
    if k < 0 {
      NoAmpersands(s);
    } else {
      SplitCount(s[k + 1..]);
      CountAmpersandsSplit(s, k);
    }
  }

  lemma {:induction false} NoAmpersands(s: string)
    requires forall i :: 0 <= i < |s| ==> s[i] != '&'
    ensures CountAmpersands(s) == 0
    decreases |s|
  {
    if s != "" {
      NoAmpersands(s[1..]);
    }
  }

  lemma {:induction false} CountAmpersandsSplit(s: string, k: nat)
    requires k < |s| && s[k] == '&' && forall i :: 0 <= i < k ==> s[i] != '&'
    ensures CountAmpersands(s) == 1 + CountAmpersands(s[k + 1..])
    decreases k
  {
    if k > 0 {
      assert s[1..][k - 1] == '&';
      assert s[1..][k..] == s[k + 1..];
      CountAmpersandsSplit(s[1..], k - 1);
    } else {
      assert s[1..] == s[k + 1..];
    }
  }

  /** A pair as stored: url-decoded when asked to. */
  function DecodedPair(p: (string, string), urlencoded: bool, utf8Decode: seq<Byte> -> string): (string, string)
  {
    if urlencoded then (UrlDecodeText(p.0, utf8Decode), UrlDecodeText(p.1, utf8Decode)) else p
  }

  /** Adds the pairs in order. */
  function AddAll(c: NameValues.NameValueCollection, pairs: seq<(string, string)>): NameValues.NameValueCollection
    decreases |pairs|
  {
    if pairs == [] then c else AddAll(NameValues.Add(c, Some(pairs[0].0), Some(pairs[0].1)), pairs[1..])
  }

  function DecodedPairs(pairs: seq<(string, string)>, urlencoded: bool, utf8Decode: seq<Byte> -> string): (r: seq<(string, string)>)
    ensures |r| == |pairs|
    ensures forall i :: 0 <= i < |pairs| ==> r[i] == DecodedPair(pairs[i], urlencoded, utf8Decode)
  {
    if pairs == [] then [] else [DecodedPair(pairs[0], urlencoded, utf8Decode)] + DecodedPairs(pairs[1..], urlencoded, utf8Decode)
  }

  lemma AddAllAppend(c: NameValues.NameValueCollection, a: seq<(string, string)>, b: seq<(string, string)>)
    ensures AddAll(c, a + b) == AddAll(AddAll(c, a), b)
    decreases |a|
  {
    if a != [] {
      assert (a + b)[1..] == a[1..] + b;
      AddAllAppend(NameValues.Add(c, Some(a[0].0), Some(a[0].1)), a[1..], b);
    } else {
      assert a + b == b;
    }
  }

  /** Adding pairs keeps the collection's keys distinct. */
  lemma {:induction false} AddAllKeepsValid(c: NameValues.NameValueCollection, pairs: seq<(string, string)>)
    requires NameValues.Valid(c)
    ensures NameValues.Valid(AddAll(c, pairs))
    decreases |pairs|
  {
    if pairs != [] {
      AddAllKeepsValid(NameValues.Add(c, Some(pairs[0].0), Some(pairs[0].1)), pairs[1..]);
    }
  }

  /** The collection a query string's pairs are added to; keys compare ignoring case. */
  class HttpValueCollection {
    var values: NameValues.NameValueCollection

    /** A collection filled from the text, url-decoding names and values; null or empty text gives an empty one. */
    constructor(str: Option<string>, utf8Decode: seq<Byte> -> string)
      requires DecoderFits(utf8Decode)
      ensures values == if IsNullOrEmpty(str) then NameValues.Empty
                        else AddAll(NameValues.Empty, DecodedPairs(Pairs(str.value), true, utf8Decode))
      ensures NameValues.Valid(values)
    {
      values := NameValues.Empty;
      new;
      if !IsNullOrEmpty(str) {
        FillFromString(str.value, true, utf8Decode);
      }
      AddAllKeepsValid(NameValues.Empty, DecodedPairs(if IsNullOrEmpty(str) then [] else Pairs(str.value), true, utf8Decode));
    }

    /**
     * Adds one pair per '&'-separated segment of s, in order, plus an empty
     * pair for a final '&'; names and values are url-decoded when asked.
     */
    method FillFromString(s: string, urlencoded: bool, utf8Decode: seq<Byte> -> string)
      requires DecoderFits(utf8Decode)
      modifies this
      ensures values == AddAll(old(values), DecodedPairs(Pairs(s), urlencoded, utf8Decode))
    {
      var num := |s|;
      var i := 0;
      ghost var target := AddAll(values, DecodedPairs(Pairs(s), urlencoded, utf8Decode));
      while i < num
        invariant 0 <= i
        invariant i < num ==> AddAll(values, DecodedPairs(FillFrom(s, i), urlencoded, utf8Decode)) == target
        invariant i >= num ==> values == target
        decreases num - i
      {
        var startIndex := i;
        var eq;
        i, eq := ScanSegment(s, startIndex);
        var key := "";
        var value := "";
        if eq >= 0 {
          key := s[startIndex..eq];
          value := s[eq + 1..i];
        } else {
          value := s[startIndex..i];
        }
        ghost var later := if i + 1 < num then FillFrom(s, i + 1) else if i + 1 == num then [("", "")] else [];
        FillFromUnfold(s, startIndex);
        AddDecodedCons(values, (key, value), later, urlencoded, utf8Decode);
        if urlencoded {
          var k := UrlDecode(Some(key), utf8Decode);
          var v := UrlDecode(Some(value), utf8Decode);
          values := NameValues.Add(values, k, v);
        } else {
          values := NameValues.Add(values, Some(key), Some(value));
        }
        if i == num - 1 && s[i] == '&' {
          AddDecodedCons(values, ("", ""), [], urlencoded, utf8Decode);
          EmptyDecodesToEmpty(utf8Decode);
          values := NameValues.Add(values, Some(""), Some(""));
        }
        i := i + 1;
      }
      if num == 0 {
        assert values == target;
      }
    }

    /** The collection written back out: names and values url-encoded, pairs joined with '&'. */
    method ToString(utf8Encode: string -> seq<Byte>) returns (r: string)
      ensures r == Serialized(values.entries, utf8Encode)
    {
      var entries := values.entries;
      if |entries| == 0 {
        return "";
      }
      var builder := "";
      for i := 0 to |entries|
        invariant builder == Serialized(entries[..i], utf8Encode)
      {
        SerializedSnoc(entries, i, utf8Encode);
        var key := UrlEncode(entries[i].key, utf8Encode);
        var prefix := if !IsNullOrEmpty(key) then key.value + "=" else "";
        assert prefix == KeyPrefix(entries[i].key, utf8Encode);
        var list := entries[i].values;
        if |builder| > 0 {
          builder := builder + "&";
        }
        ghost var mid := builder;
        if |list| == 1 {
          var v := UrlEncode(Some(list[0]), utf8Encode);
          assert EncodedValues(list, utf8Encode) == [v.value];
          builder := builder + prefix + v.value;
          AppendAssoc(mid, prefix, v.value);
        } else if |list| == 0 {
          builder := builder + prefix;
        } else {
          builder := AppendValues(builder, prefix, list, utf8Encode);
        }
        assert builder == mid + EntryText(entries[i], utf8Encode);
      }
      assert entries[..|entries|] == entries;
      r := builder;
    }
  }

  /** The inner loop of ToString: prefix + encoded value for each value, joined with '&'. */
  method AppendValues(builder: string, prefix: string, list: seq<string>, utf8Encode: string -> seq<Byte>) returns (r: string)
    ensures r == builder + ValuesText(prefix, EncodedValues(list, utf8Encode))
  {
    r := builder;
    ghost var done: seq<string> := [];
    for j := 0 to |list|
      invariant done == EncodedValues(list[..j], utf8Encode)
      invariant r == builder + ValuesText(prefix, done)
    {
      EncodedValuesSnoc(list, j, utf8Encode);
      if j > 0 {
        r := r + "&";
      }
      var v := UrlEncode(Some(list[j]), utf8Encode);
      r := r + prefix + v.value;
      ValuesTextSnoc(builder, prefix, done, v.value);
      done := done + [v.value];
    }
    assert list[..|list|] == list;
  }

  lemma ValuesTextSnoc(builder: string, prefix: string, done: seq<string>, v: string)
    ensures done == [] ==> builder + ValuesText(prefix, done + [v]) == builder + ValuesText(prefix, done) + prefix + v
    ensures done != [] ==> builder + ValuesText(prefix, done + [v]) == builder + ValuesText(prefix, done) + "&" + prefix + v
  {
    var all := done + [v];
    assert all[..|all| - 1] == done;
  }

  lemma AppendAssoc(a: string, b: string, c: string)
    ensures a + b + c == a + (b + c)
  {
  }

  lemma EncodedValuesSnoc(list: seq<string>, j: nat, utf8Encode: string -> seq<Byte>)
    requires j < |list|
    ensures EncodedValues(list[..j + 1], utf8Encode) == EncodedValues(list[..j], utf8Encode) + [UrlEncodeText(list[j], utf8Encode)]
  {
    assert list[..j + 1][..j] == list[..j];
  }

  lemma SerializedSnoc(entries: seq<NameValues.Entry>, i: nat, utf8Encode: string -> seq<Byte>)
    requires i < |entries|
    ensures var before := Serialized(entries[..i], utf8Encode);
            Serialized(entries[..i + 1], utf8Encode)
            == (if |before| > 0 then before + "&" else before) + EntryText(entries[i], utf8Encode)
  {
    assert entries[..i + 1][..i] == entries[..i];
  }

  /**
   * The inner loop of FillFromString: from start, the end of the segment
   * and the position of its first '=' (-1 when it has none).
   */
  method ScanSegment(s: string, start: nat) returns (e: nat, eq: int)
    requires start < |s|
    ensures e == SegmentEnd(s, start)
    ensures eq >= 0 ==> start <= eq < e
    ensures KeyValue(s[start..e]) == if eq < 0 then ("", s[start..e]) else (s[start..eq], s[eq + 1..e])
  {
    e := start;
    eq := -1;
    while e < |s| && s[e] != '&'
      invariant start <= e <= |s|
      invariant forall k :: start <= k < e ==> s[k] != '&'
      invariant eq == -1 ==> forall k :: start <= k < e ==> s[k] != '='
      invariant eq != -1 ==> start <= eq < e && s[eq] == '=' && forall k :: start <= k < eq ==> s[k] != '='
    {
      if s[e] == '=' && eq < 0 {
        eq := e;
      }
      e := e + 1;
    }
    SegmentEndUnique(s, start, e);
    KeyValueOfScan(s, start, e, eq);
  }

  lemma FillFromUnfold(s: string, i: nat)
    requires i < |s|
    ensures var e := SegmentEnd(s, i);
            FillFrom(s, i) == [KeyValue(s[i..e])]
                              + (if e + 1 < |s| then FillFrom(s, e + 1) else if e + 1 == |s| then [("", "")] else [])
  {
  }

  lemma EmptyDecodesToEmpty(utf8Decode: seq<Byte> -> string)
    ensures UrlDecodeText("", utf8Decode) == ""
  {
  }

  /** What the inner scanning loop finds is the segment's key and value. */
  lemma KeyValueOfScan(s: string, start: nat, e: nat, eq: int)
    requires start <= e <= |s|
    requires eq == -1 ==> forall k :: start <= k < e ==> s[k] != '='
    requires eq != -1 ==> start <= eq < e && s[eq] == '=' && forall k :: start <= k < eq ==> s[k] != '='
    ensures KeyValue(s[start..e]) == if eq == -1 then ("", s[start..e]) else (s[start..eq], s[eq + 1..e])
  {
    var segment := s[start..e];
    assert forall k :: 0 <= k < |segment| ==> segment[k] == s[start + k];
    if eq != -1 {
      assert segment[eq - start] == '=';
      assert IndexOfChar(segment, '=') == eq - start;
      assert segment[..eq - start] == s[start..eq];
      assert segment[eq - start + 1..] == s[eq + 1..e];
    }
  }

  lemma AddDecodedCons(c: NameValues.NameValueCollection, p: (string, string), rest: seq<(string, string)>,
                       urlencoded: bool, utf8Decode: seq<Byte> -> string)
    ensures var d := DecodedPair(p, urlencoded, utf8Decode);
            AddAll(c, DecodedPairs([p] + rest, urlencoded, utf8Decode))
            == AddAll(NameValues.Add(c, Some(d.0), Some(d.1)), DecodedPairs(rest, urlencoded, utf8Decode))
  {
    var all := DecodedPairs([p] + rest, urlencoded, utf8Decode);
    assert ([p] + rest)[1..] == rest;
    assert all[1..] == DecodedPairs(rest, urlencoded, utf8Decode);
  }

  /** The url-encoded values. */
  function EncodedValues(values: seq<string>, utf8Encode: string -> seq<Byte>): (r: seq<string>)
    ensures |r| == |values|
  {
    if values == [] then []
    else EncodedValues(values[..|values| - 1], utf8Encode) + [UrlEncodeText(values[|values| - 1], utf8Encode)]
  }

  /** prefix + v for each value, joined with '&'. */
  function ValuesText(prefix: string, encoded: seq<string>): string
  {
    if |encoded| == 0 then ""
    else if |encoded| == 1 then prefix + encoded[0]
    else ValuesText(prefix, encoded[..|encoded| - 1]) + "&" + prefix + encoded[|encoded| - 1]
  }

  /** "name=" for a non-empty encoded name, else nothing. */
  function KeyPrefix(key: Option<string>, utf8Encode: string -> seq<Byte>): string
  {
    if key.Some? && UrlEncodeText(key.value, utf8Encode) != "" then UrlEncodeText(key.value, utf8Encode) + "=" else ""
  }

  /** One entry's text: "name=value" per value, or just "name=" when it has none. */
  function EntryText(e: NameValues.Entry, utf8Encode: string -> seq<Byte>): string
  {
    var prefix := KeyPrefix(e.key, utf8Encode);
    if e.values == [] then prefix else ValuesText(prefix, EncodedValues(e.values, utf8Encode))
  }

  /** The entries' texts in order, each after a '&' unless nothing has been written yet. */
  function Serialized(entries: seq<NameValues.Entry>, utf8Encode: string -> seq<Byte>): string
  {
    if entries == [] then ""
    else
      var before := Serialized(entries[..|entries| - 1], utf8Encode);
      (if |before| > 0 then before + "&" else before) + EntryText(entries[|entries| - 1], utf8Encode)
  }

  lemma SegmentEndUnique(s: string, i: nat, e: nat)
    requires i <= e <= |s|
    requires forall k :: i <= k < e ==> s[k] != '&'
    requires e == |s| || s[e] == '&'
    ensures SegmentEnd(s, i) == e
    decreases |s| - i
  {
    if i < e {
      SegmentEndUnique(s, i + 1, e);
    }
  }

  lemma DecodedPairsAppend(a: seq<(string, string)>, b: seq<(string, string)>, urlencoded: bool, utf8Decode: seq<Byte> -> string)
    ensures DecodedPairs(a + b, urlencoded, utf8Decode) == DecodedPairs(a, urlencoded, utf8Decode) + DecodedPairs(b, urlencoded, utf8Decode)
  {
    var l := DecodedPairs(a + b, urlencoded, utf8Decode);
    var r := DecodedPairs(a, urlencoded, utf8Decode) + DecodedPairs(b, urlencoded, utf8Decode);
    assert |l| == |r|;
    forall i | 0 <= i < |l|
      ensures l[i] == r[i]
    {
      if i < |a| {
        assert (a + b)[i] == a[i];
      } else {
        assert (a + b)[i] == b[i - |a|];
      }
    }
  }

  // ---------------------------------------------------------------------
  // Writing a collection out and parsing it back

  /** The name/value pairs of a collection, entry by entry and value by value. */
  function FlatPairs(entries: seq<NameValues.Entry>): seq<(string, string)>
  {
    if entries == [] then []
    else
      var e := entries[|entries| - 1];
      FlatPairs(entries[..|entries| - 1]) + ValuePairs(e.key.GetOr(""), e.values)
  }

  function ValuePairs(key: string, values: seq<string>): (r: seq<(string, string)>)
    ensures |r| == |values| && forall i :: 0 <= i < |values| ==> r[i] == (key, values[i])
  {
    if values == [] then [] else ValuePairs(key, values[..|values| - 1]) + [(key, values[|values| - 1])]
  }

  /** The text a pair is written as: encoded name, '=', encoded value. */
  function Segment(p: (string, string), utf8Encode: string -> seq<Byte>): string
  {
    (UrlEncodeText(p.0, utf8Encode) + "=") + UrlEncodeText(p.1, utf8Encode)
  }

  function Segments(pairs: seq<(string, string)>, utf8Encode: string -> seq<Byte>): (r: seq<string>)
    ensures |r| == |pairs| && forall i :: 0 <= i < |pairs| ==> r[i] == Segment(pairs[i], utf8Encode)
  {
    if pairs == [] then [] else Segments(pairs[..|pairs| - 1], utf8Encode) + [Segment(pairs[|pairs| - 1], utf8Encode)]
  }

  lemma {:induction false} SegmentsAppend(a: seq<(string, string)>, b: seq<(string, string)>, utf8Encode: string -> seq<Byte>)
    ensures Segments(a + b, utf8Encode) == Segments(a, utf8Encode) + Segments(b, utf8Encode)
    decreases |b|
  {
    if b == [] {
      assert a + b == a;
    } else {
      var init := b[..|b| - 1];
      assert (a + b)[..|a + b| - 1] == a + init;
      assert (a + b)[|a + b| - 1] == b[|b| - 1];
      SegmentsAppend(a, init, utf8Encode);
    }
  }

  /** Splitting at '&' a text made of two parts joined by '&' splits each part. */
  lemma {:induction false} SplitJoined(a: string, b: string)
    ensures SplitAtAmpersand(a + "&" + b) == SplitAtAmpersand(a) + SplitAtAmpersand(b)
    decreases |a|
  {
    var k := IndexOfChar(a, '&');
    if k < 0 {
      SplitJoinedLast(a, b);
    } else {
      FirstAmpersandOfJoined(a, b, k);
      SplitAtFirst(a, k);
      SplitJoined(a[k + 1..], b);
      var x := [a[..k]];
      var y := SplitAtAmpersand(a[k + 1..]);
      var z := SplitAtAmpersand(b);
      assert SplitAtAmpersand(a + "&" + b) == x + (y + z);
      assert SplitAtAmpersand(a) == x + y;
      AppendAssociates(x, y, z);
    }
  }

  lemma FirstAmpersandOfJoined(a: string, b: string, k: int)
    requires 0 <= k && IndexOfChar(a, '&') == k
    ensures SplitAtAmpersand(a + "&" + b) == [a[..k]] + SplitAtAmpersand(a[k + 1..] + "&" + b)
  {
    var t := a + "&" + b;
    assert IndexOfChar(t, '&') == k by {
      assert forall i :: 0 <= i <= k ==> t[i] == a[i];
    }
    SplitAtFirst(t, k);
    assert t[..k] == a[..k];
    assert t[k + 1..] == a[k + 1..] + "&" + b;
  }

  lemma SplitJoinedLast(a: string, b: string)
    requires IndexOfChar(a, '&') < 0
    ensures SplitAtAmpersand(a + "&" + b) == SplitAtAmpersand(a) + SplitAtAmpersand(b)
  {
    var t := a + "&" + b;
    assert IndexOfChar(t, '&') == |a| by {
      assert t[|a|] == '&' && forall i :: 0 <= i < |a| ==> t[i] == a[i];
    }
    SplitAtFirst(t, |a|);
    assert t[..|a|] == a && t[|a| + 1..] == b;
  }

  lemma SplitWithoutAmpersand(a: string)
    requires forall i :: 0 <= i < |a| ==> a[i] != '&'
    ensures SplitAtAmpersand(a) == [a]
  {
  }

  /** An encoded text has neither '&' nor '=' in it. */
  lemma EncodedHasNoSeparators(s: string, utf8Encode: string -> seq<Byte>)
    ensures forall i :: 0 <= i < |UrlEncodeText(s, utf8Encode)| ==>
              UrlEncodeText(s, utf8Encode)[i] != '&' && UrlEncodeText(s, utf8Encode)[i] != '='
  {
    var bytes := EncodeBytes(utf8Encode(s));
    EncodedBytesAreSafeAscii(utf8Encode(s));
    forall i | 0 <= i < |bytes|
      ensures AsciiText(bytes)[i] != '&' && AsciiText(bytes)[i] != '='
    {
      AsciiTextAt(bytes, i);
    }
  }

  /** A text with UTF-8 bytes has a non-empty encoding. */
  lemma EncodedIsNonEmpty(s: string, utf8Encode: string -> seq<Byte>)
    requires utf8Encode(s) != []
    ensures UrlEncodeText(s, utf8Encode) != ""
  {
  }

  /** The segments of one entry, written out with its name prefix, split back apart. */
  lemma {:induction false} SplitEntryValues(key: string, values: seq<string>, utf8Encode: string -> seq<Byte>)
    requires values != []
    ensures SplitAtAmpersand(ValuesText(UrlEncodeText(key, utf8Encode) + "=", EncodedValues(values, utf8Encode)))
            == Segments(ValuePairs(key, values), utf8Encode)
    decreases |values|
  {
    var prefix := UrlEncodeText(key, utf8Encode) + "=";
    var n := |values|;
    var init := values[..n - 1];
    var seg := Segment((key, values[n - 1]), utf8Encode);
    SegmentHasNoAmpersand(key, values[n - 1], utf8Encode);
    SplitWithoutAmpersand(seg);
    EntrySegmentsSnoc(key, values, utf8Encode);
    if n == 1 {
      assert EncodedValues(values, utf8Encode) == [UrlEncodeText(values[0], utf8Encode)];
    } else {
      var before := ValuesText(prefix, EncodedValues(init, utf8Encode));
      ValuesTextSplitLast(prefix, values, utf8Encode);
      SplitJoined(before, seg);
      SplitEntryValues(key, init, utf8Encode);
    }
  }

  lemma SegmentHasNoAmpersand(key: string, value: string, utf8Encode: string -> seq<Byte>)
    ensures forall i :: 0 <= i < |Segment((key, value), utf8Encode)| ==> Segment((key, value), utf8Encode)[i] != '&'
  {
    var name := UrlEncodeText(key, utf8Encode);
    var v := UrlEncodeText(value, utf8Encode);
    EncodedHasNoSeparators(key, utf8Encode);
    EncodedHasNoSeparators(value, utf8Encode);
    var seg := (name + "=") + v;
    assert forall i :: 0 <= i < |name| ==> seg[i] == name[i];
    assert forall i :: |name| + 1 <= i < |seg| ==> seg[i] == v[i - |name| - 1];
  }

  lemma EntrySegmentsSnoc(key: string, values: seq<string>, utf8Encode: string -> seq<Byte>)
    requires values != []
    ensures Segments(ValuePairs(key, values), utf8Encode)
            == Segments(ValuePairs(key, values[..|values| - 1]), utf8Encode) + [Segment((key, values[|values| - 1]), utf8Encode)]
  {
    var pairs := ValuePairs(key, values);
    assert pairs[..|pairs| - 1] == ValuePairs(key, values[..|values| - 1]);
  }

  lemma ValuesTextSplitLast(prefix: string, values: seq<string>, utf8Encode: string -> seq<Byte>)
    requires |values| > 1
    ensures var n := |values|;
            ValuesText(prefix, EncodedValues(values, utf8Encode))
            == ValuesText(prefix, EncodedValues(values[..n - 1], utf8Encode)) + "&" + (prefix + UrlEncodeText(values[n - 1], utf8Encode))
  {
    var encoded := EncodedValues(values, utf8Encode);
    assert encoded[..|encoded| - 1] == EncodedValues(values[..|values| - 1], utf8Encode);
  }

  /** Whether every entry has a name with a non-empty encoding and at least one value. */
  predicate WritableEntries(entries: seq<NameValues.Entry>, utf8Encode: string -> seq<Byte>)
  {
    forall i :: 0 <= i < |entries| ==>
      entries[i].key.Some? && utf8Encode(entries[i].key.value) != [] && entries[i].values != []
  }

  /** Written-out entries split at '&' into one segment per name/value pair. */
  lemma {:induction false} SplitSerialized(entries: seq<NameValues.Entry>, utf8Encode: string -> seq<Byte>)
    requires entries != [] && WritableEntries(entries, utf8Encode)
    ensures Serialized(entries, utf8Encode) != ""
    ensures SplitAtAmpersand(Serialized(entries, utf8Encode)) == Segments(FlatPairs(entries), utf8Encode)
    decreases |entries|
  {
    var n := |entries|;
    if n == 1 {
      SplitSerializedLast(entries, utf8Encode);
    } else {
      var init := entries[..n - 1];
      assert WritableEntries(init, utf8Encode) by {
        forall i | 0 <= i < |init|
          ensures init[i].key.Some? && utf8Encode(init[i].key.value) != [] && init[i].values != []
        {
          assert init[i] == entries[i];
        }
      }
      SplitSerialized(init, utf8Encode);
      SplitSerializedLast(entries, utf8Encode);
    }
  }

  /**
   * The step of SplitSerialized: the last entry's text splits into its
   * pairs' segments, after the segments of the entries before it if any.
   */
  lemma SplitSerializedLast(entries: seq<NameValues.Entry>, utf8Encode: string -> seq<Byte>)
    requires entries != []
    requires var e := entries[|entries| - 1]; e.key.Some? && utf8Encode(e.key.value) != [] && e.values != []
    requires var init := entries[..|entries| - 1];
      init != [] ==> Serialized(init, utf8Encode) != ""
                     && SplitAtAmpersand(Serialized(init, utf8Encode)) == Segments(FlatPairs(init), utf8Encode)
    ensures Serialized(entries, utf8Encode) != ""
    ensures SplitAtAmpersand(Serialized(entries, utf8Encode)) == Segments(FlatPairs(entries), utf8Encode)
  {
    var n := |entries|;
    var init := entries[..n - 1];
    var e := entries[n - 1];
    var key := e.key.value;
    var text := EntryText(e, utf8Encode);
    SplitEntryText(e, utf8Encode);
    assert FlatPairs(entries) == FlatPairs(init) + ValuePairs(key, e.values);
    SerializedLast(entries, utf8Encode);
    if n == 1 {
      assert init == [];
      assert Serialized(init, utf8Encode) == "" && FlatPairs(init) == [];
      assert Serialized(entries, utf8Encode) == text;
      assert FlatPairs(entries) == ValuePairs(key, e.values);
    } else {
      var before := Serialized(init, utf8Encode);
      assert |before| > 0;
      SplitJoined(before, text);
      SegmentsAppend(FlatPairs(init), ValuePairs(key, e.values), utf8Encode);
    }
  }

  /** The written-out entries: those before the last, then '&' if they wrote anything, then the last entry. */
  lemma SerializedLast(entries: seq<NameValues.Entry>, utf8Encode: string -> seq<Byte>)
    requires entries != []
    ensures var before := Serialized(entries[..|entries| - 1], utf8Encode);
      Serialized(entries, utf8Encode)
        == (if |before| > 0 then before + "&" else before) + EntryText(entries[|entries| - 1], utf8Encode)
  {
  }

  /** One written-out entry is non-empty and splits into its pairs' segments. */
  lemma SplitEntryText(e: NameValues.Entry, utf8Encode: string -> seq<Byte>)
    requires e.key.Some? && utf8Encode(e.key.value) != [] && e.values != []
    ensures EntryText(e, utf8Encode) != ""
    ensures SplitAtAmpersand(EntryText(e, utf8Encode)) == Segments(ValuePairs(e.key.value, e.values), utf8Encode)
  {
    var key := e.key.value;
    EncodedIsNonEmpty(key, utf8Encode);
    var prefix := UrlEncodeText(key, utf8Encode) + "=";
    assert KeyPrefix(e.key, utf8Encode) == prefix;
    ValuesTextStartsWith(prefix, EncodedValues(e.values, utf8Encode));
    SplitEntryValues(key, e.values, utf8Encode);
  }

  lemma {:induction false} ValuesTextStartsWith(prefix: string, encoded: seq<string>)
    requires encoded != []
    ensures |ValuesText(prefix, encoded)| >= |prefix|
    decreases |encoded|
  {
    if |encoded| > 1 {
      ValuesTextStartsWith(prefix, encoded[..|encoded| - 1]);
    }
  }

  lemma MapKeyValueAt(segments: seq<string>, i: nat)
    requires i < |segments|
    ensures MapKeyValue(segments)[i] == KeyValue(segments[i])
  {
    if i > 0 {
      MapKeyValueAt(segments[1..], i - 1);
    }
  }

  /** A segment splits back at its '=' into the encoded name and value. */
  lemma KeyValueOfSegment(p: (string, string), utf8Encode: string -> seq<Byte>)
    ensures KeyValue(Segment(p, utf8Encode)) == (UrlEncodeText(p.0, utf8Encode), UrlEncodeText(p.1, utf8Encode))
  {
    var name := UrlEncodeText(p.0, utf8Encode);
    var seg := Segment(p, utf8Encode);
    EncodedHasNoSeparators(p.0, utf8Encode);
    assert seg[|name|] == '=' && forall i :: 0 <= i < |name| ==> seg[i] == name[i];
    assert IndexOfChar(seg, '=') == |name|;
    assert seg[..|name|] == name;
    assert seg[|name| + 1..] == UrlEncodeText(p.1, utf8Encode);
  }

  /**
   * Writing a collection out and parsing it back gives its name/value pairs
   * in order, provided the UTF-8 conversion round-trips, every entry has a
   * non-empty name and at least one value.
   */
  lemma ParseOfSerialized(entries: seq<NameValues.Entry>, utf8Encode: string -> seq<Byte>, utf8Decode: seq<Byte> -> string)
    requires forall s :: utf8Encode(s) == [] <==> s == ""
    requires forall s :: s != "" ==> utf8Decode(utf8Encode(s)) == s
    requires forall i :: 0 <= i < |entries| ==>
               entries[i].key.Some? && entries[i].key.value != "" && entries[i].values != []
    ensures DecodedPairs(Pairs(Serialized(entries, utf8Encode)), true, utf8Decode) == FlatPairs(entries)
  {
    if entries != [] {
      SplitSerialized(entries, utf8Encode);
      PairsAreSegments(Serialized(entries, utf8Encode));
      DecodeSegments(FlatPairs(entries), utf8Encode, utf8Decode);
    }
  }

  /** Each segment splits at '=' and decodes back into the pair it was written from. */
  lemma DecodeSegments(pairs: seq<(string, string)>, utf8Encode: string -> seq<Byte>, utf8Decode: seq<Byte> -> string)
    requires forall s :: utf8Encode(s) == [] <==> s == ""
    requires forall s :: s != "" ==> utf8Decode(utf8Encode(s)) == s
    ensures DecodedPairs(MapKeyValue(Segments(pairs, utf8Encode)), true, utf8Decode) == pairs
  {
    var segments := Segments(pairs, utf8Encode);
    var decoded := DecodedPairs(MapKeyValue(segments), true, utf8Decode);
    forall i | 0 <= i < |pairs|
      ensures decoded[i] == pairs[i]
    {
      MapKeyValueAt(segments, i);
      KeyValueOfSegment(pairs[i], utf8Encode);
      UrlDecodeOfUrlEncode(pairs[i].0, utf8Encode, utf8Decode);
      UrlDecodeOfUrlEncode(pairs[i].1, utf8Encode, utf8Decode);
    }
  }

  /** Adding a new key's values one by one gives one new entry holding them all, at the end. */
  lemma {:induction false} AddValuesOfNewKey(entries: seq<NameValues.Entry>, key: string, values: seq<string>)
    requires values != []
    requires forall i :: 0 <= i < |entries| ==> !NameValues.KeyEquals(entries[i].key, Some(key))
    ensures AddAll(NameValues.NameValueCollection(entries), ValuePairs(key, values))
            == NameValues.NameValueCollection(entries + [NameValues.Entry(Some(key), values)])
    decreases |values|
  {
    var c := NameValues.NameValueCollection(entries);
    var n := |values|;
    if n == 1 {
      assert ValuePairs(key, values) == [(key, values[0])];
      assert NameValues.IndexOfKey(entries, Some(key)) == -1;
      assert values == [values[0]];
    } else {
      var init := values[..n - 1];
      assert ValuePairs(key, values) == ValuePairs(key, init) + [(key, values[n - 1])];
      AddAllAppend(c, ValuePairs(key, init), [(key, values[n - 1])]);
      AddValuesOfNewKey(entries, key, init);
      var grown := entries + [NameValues.Entry(Some(key), init)];
      EqualsIgnoreCaseIsEquivalence(key, key, key);
      assert forall i :: 0 <= i < |entries| ==> grown[i] == entries[i];
      assert NameValues.KeyEquals(grown[|entries|].key, Some(key));
      assert forall i :: 0 <= i < |entries| ==> !NameValues.KeyEquals(grown[i].key, Some(key));
      assert NameValues.IndexOfKey(grown, Some(key)) == |entries|;
      assert grown[|entries| := NameValues.Entry(Some(key), init + [values[n - 1]])]
             == entries + [NameValues.Entry(Some(key), values)] by {
        assert init + [values[n - 1]] == values;
      }
    }
  }

  /** Adding the flattened pairs of distinct-keyed entries to an empty collection rebuilds it. */
  lemma {:induction false} AddAllFlatPairs(entries: seq<NameValues.Entry>)
    requires NameValues.Valid(NameValues.NameValueCollection(entries))
    requires forall i :: 0 <= i < |entries| ==> entries[i].key.Some? && entries[i].values != []
    ensures AddAll(NameValues.Empty, FlatPairs(entries)) == NameValues.NameValueCollection(entries)
    decreases |entries|
  {
    if entries != [] {
      var n := |entries|;
      var init := entries[..n - 1];
      var e := entries[n - 1];
      assert FlatPairs(entries) == FlatPairs(init) + ValuePairs(e.key.value, e.values);
      AddAllFlatPairs(init);
      AddAllAppend(NameValues.Empty, FlatPairs(init), ValuePairs(e.key.value, e.values));
      PrefixThenLast(entries);
      LastKeyIsNew(init, e);
      AddValuesOfNewKey(init, e.key.value, e.values);
    }
  }

  /** In a collection without duplicate keys, the last key matches none before it. */
  lemma LastKeyIsNew(init: seq<NameValues.Entry>, e: NameValues.Entry)
    requires NameValues.Valid(NameValues.NameValueCollection(init + [e]))
    ensures forall i :: 0 <= i < |init| ==> !NameValues.KeyEquals(init[i].key, e.key)
  {
    var all := init + [e];
    forall i | 0 <= i < |init|
      ensures !NameValues.KeyEquals(init[i].key, e.key)
    {
      assert all[i] == init[i] && all[|init|] == e;
    }
  }

  /**
   * Parsing what ToString writes rebuilds the collection: with a UTF-8
   * conversion that round-trips, distinct non-empty names and at least one
   * value per name, the pairs parsed back and added to an empty collection
   * give the original entries.
   */
  lemma ParseOfToString(c: NameValues.NameValueCollection, utf8Encode: string -> seq<Byte>, utf8Decode: seq<Byte> -> string)
    requires forall s :: utf8Encode(s) == [] <==> s == ""
    requires forall s :: s != "" ==> utf8Decode(utf8Encode(s)) == s
    requires NameValues.Valid(c)
    requires forall i :: 0 <= i < |c.entries| ==>
               c.entries[i].key.Some? && c.entries[i].key.value != "" && c.entries[i].values != []
    ensures AddAll(NameValues.Empty, DecodedPairs(Pairs(Serialized(c.entries, utf8Encode)), true, utf8Decode)) == c
  {
    ParseOfSerialized(c.entries, utf8Encode, utf8Decode);
    AddAllFlatPairs(c.entries);
  }

  /** ParseQueryString: null is rejected, one leading '?' is dropped, and the rest is parsed and url-decoded. */
  method ParseQueryString(query: Option<string>, utf8Decode: seq<Byte> -> string) returns (r: Result<HttpValueCollection>)
    requires DecoderFits(utf8Decode)
    ensures query.None? ==> r == Err(ArgumentNull("query"))
    ensures query.Some? ==>
              var q := if |query.value| > 0 && query.value[0] == '?' then query.value[1..] else query.value;
              && r.Ok? && fresh(r.value)
              && r.value.values == AddAll(NameValues.Empty, DecodedPairs(Pairs(q), true, utf8Decode))
              && NameValues.Valid(r.value.values)
  {
    if query.None? {
      return Err(ArgumentNull("query"));
    }
    var q := query.value;
    if |q| > 0 && q[0] == '?' {
      q := q[1..];
    }
    var c := new HttpValueCollection(Some(q), utf8Decode);
    r := Ok(c);
  }
}
