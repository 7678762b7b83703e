/**
  The reader of readerc.go: two buffers that slide over the input, which arrives in reads of
  any sizes. Whatever the sizes, what comes out is what Decoding says of the whole input.
 */
module Reader {
  import opened Chars
  import opened Utf8
  import opened Decoding

  const RAW_SIZE := 512
  const BUFFER_SIZE := 1536

  /** Callers ask for at most so many characters. */
  const MAX_REQUEST := 8

  function Nuls(n: nat): (s: seq<byte>)
    ensures |s| == n && forall i :: 0 <= i < n ==> s[i] == 0
  {
    seq(n, _ => 0)
  }

  class Reader {
    const input: seq<byte>
    var inputPos: nat
    const raw: array<byte>
    var rawPos: nat
    var rawLen: nat
    const buffer: array<byte>
    var bufferPos: nat
    var bufferLen: nat
    var unread: nat
    var offset: nat
    var eof: bool
    var encoding: Encoding
    var error: bool
    var problem: Problem
    var problemOffset: nat
    var problemValue: int

    /** The characters the caller has passed, and those decoded and waiting; the NULs behind
        them, and how many of those count as unread. */
    ghost var passed: string
    ghost var waiting: string
    ghost var nuls: nat
    ghost var counted: nat

    // ----- the invariant -----

    /** The raw buffer holds what was read and not decoded. */
    ghost predicate RawHolds()
      reads this`inputPos, this`rawPos, this`rawLen, this`offset, this`eof, raw
    {
      && raw.Length == RAW_SIZE && rawPos <= rawLen <= RAW_SIZE
      && offset + (rawLen - rawPos) == inputPos <= |input|
      && raw[rawPos..rawLen] == input[offset..inputPos]
      && (eof ==> inputPos == |input|)
    }

    /** The buffer holds the waiting characters and the NULs at the end of the input. */
    ghost predicate BufferHolds()
      reads this`bufferPos, this`bufferLen, this`unread, this`waiting, this`nuls, this`counted, buffer
    {
      && buffer.Length == BUFFER_SIZE && bufferPos <= bufferLen <= BUFFER_SIZE
      && buffer[bufferPos..bufferLen] == EncodeAll(waiting) + Nuls(nuls)
      && unread == |waiting| + counted && counted <= nuls <= counted + MAX_REQUEST
    }

    ghost predicate NulsAtEnd()
      reads this`nuls, this`eof, this`rawPos, this`rawLen, this`encoding
    {
      nuls > 0 ==> eof && rawPos == rawLen && !encoding.Undetermined?
    }

    /** What was decoded so far is the beginning of what the input decodes to. */
    ghost predicate Decodes()
      reads this`encoding, this`offset, this`passed, this`waiting
    {
      if encoding.Undetermined? then offset == 0 && passed == "" && waiting == ""
      else offset <= |input| && Decoding.At(input, encoding, offset, passed + waiting)
    }

    ghost predicate Valid()
      reads this, raw, buffer
    {
      raw != buffer && RawHolds() && BufferHolds() && NulsAtEnd() && Decodes()
    }

    /** The error is the one that the whole input has. */
    ghost predicate Failed()
      reads this`error, this`problem, this`problemOffset, this`problemValue
    {
      error && DecodeAll(input).verdict == Failure(problem, problemOffset, problemValue)
    }

    constructor (input: seq<byte>)
      ensures Valid() && this.input == input && !error && passed == "" && fresh(raw) && fresh(buffer) && raw != buffer
    {
      this.input := input;
      inputPos, rawPos, rawLen, bufferPos, bufferLen, unread, offset := 0, 0, 0, 0, 0, 0, 0;
      eof, encoding, error, problem, problemOffset, problemValue := false, Undetermined, false, InvalidLength, 0, 0;
      passed, waiting, nuls, counted := "", "", 0, 0;
      raw := new byte[RAW_SIZE];
      buffer := new byte[BUFFER_SIZE];
    }

    // ----- raw bytes -----

    /** One call of the read handler: some bytes, at least one unless the input has ended.
        The end may be told together with the last bytes or afterwards. */
    method Read(from: nat, space: nat) returns (n: nat, end: bool)
      requires inputPos <= |input| && space > 0 && from + space <= raw.Length
      modifies raw, this`inputPos
      ensures n <= space && inputPos == old(inputPos) + n <= |input|
      ensures raw[..from] == old(raw[..from]) && raw[from..from + n] == input[old(inputPos)..inputPos]
      ensures n == 0 ==> end
      ensures end ==> inputPos == |input|
    {
      var left := |input| - inputPos;
      if left == 0 {
        return 0, true;
      }
      var most := if left < space then left else space;
      n :| 1 <= n <= most;
      end := *;
      end := end && n == left;
      var start := inputPos;
      forall i | 0 <= i < n {
        raw[from + i] := input[start + i];
      }
      inputPos := inputPos + n;
    }

    /** Moves what is left to the beginning of the raw buffer. */
    method CompactRaw()
      requires RawHolds()
      modifies this`rawPos, this`rawLen, raw
      ensures RawHolds() && rawPos == 0 && rawLen == old(rawLen) - old(rawPos)
    {
      ghost var left := raw[rawPos..rawLen];
      var n, from := rawLen - rawPos, rawPos;
      if rawPos > 0 && rawPos < rawLen {
        forall i | 0 <= i < n {
          raw[i] := raw[from + i];
        }
        assert forall i :: 0 <= i < n ==> raw[i] == left[i];
      }
      rawLen := n;
      rawPos := 0;
      assert raw[0..n] == left;
    }

    method UpdateRawBuffer()
      requires RawHolds()
      modifies this`rawPos, this`rawLen, this`inputPos, this`eof, raw
      ensures RawHolds() && (old(eof) ==> eof && rawPos == old(rawPos) && rawLen == old(rawLen))
      ensures eof || rawLen - rawPos > old(rawLen) - old(rawPos) || (rawPos == 0 && rawLen == RAW_SIZE)
    {
      if rawPos == 0 && rawLen == RAW_SIZE {
        return;
      }
      if eof {
        return;
      }
      CompactRaw();
      ghost var left, was := raw[..rawLen], inputPos;
      var n, end := Read(rawLen, RAW_SIZE - rawLen);
      assert raw[0..rawLen + n] == left + raw[rawLen..rawLen + n];
      assert input[offset..inputPos] == input[offset..was] + input[was..inputPos];
      rawLen := rawLen + n;
      eof := end;
    }

    /** The encoding that the bytes at hand name. */
    method FindMark() returns (enc: Encoding, mark: nat)
      requires rawPos <= rawLen <= raw.Length
      ensures (enc, mark) == Detect(raw[rawPos..rawLen])
    {
      ghost var first := raw[rawPos..rawLen];
      var avail := rawLen - rawPos;
      if avail >= 2 && raw[rawPos] == 0xFF && raw[rawPos + 1] == 0xFE {
        return Utf16Little, 2;
      } else if avail >= 2 && raw[rawPos] == 0xFE && raw[rawPos + 1] == 0xFF {
        return Utf16Big, 2;
      } else if avail >= 3 && raw[rawPos] == 0xEF && raw[rawPos + 1] == 0xBB && raw[rawPos + 2] == 0xBF {
        return Utf8Text, 3;
      } else {
        return Utf8Text, 0;
      }
    }

    /** Passes over raw bytes. */
    method Advance(n: nat)
      requires RawHolds() && rawPos + n <= rawLen
      modifies this`rawPos, this`offset
      ensures RawHolds() && rawPos == old(rawPos) + n && offset == old(offset) + n
    {
      assert raw[rawPos + n..rawLen] == raw[rawPos..rawLen][n..];
      assert input[offset + n..inputPos] == input[offset..inputPos][n..];
      rawPos := rawPos + n;
      offset := offset + n;
    }

    method DetermineEncoding()
      requires RawHolds() && encoding.Undetermined? && offset == 0 && passed == "" && waiting == ""
      modifies this`rawPos, this`rawLen, this`inputPos, this`eof, this`encoding, this`offset, raw
      ensures RawHolds() && Decodes() && !encoding.Undetermined? && (old(eof) ==> eof)
    {
      hide Detect, DecodeFrom, DecodeAll;
      while !eof && rawLen - rawPos < 3
        invariant RawHolds() && offset == 0 && (old(eof) ==> eof)
        decreases if eof then 0 else 1, 3 - (rawLen - rawPos)
      {
        UpdateRawBuffer();
      }
      assert input[0..inputPos] == input[..inputPos];
      DetectPrefix(input, inputPos);
      Starts(input);
      var mark;
      encoding, mark := FindMark();
      Advance(mark);
      assert "" + "" == "";
    }

    // ----- characters -----

    /** Writes the UTF-8 bytes of a character behind the others. */
    method Store(c: char)
      requires bufferLen + 4 <= buffer.Length
      modifies this`bufferLen, buffer
      ensures bufferLen == old(bufferLen) + |Encode(c)| <= buffer.Length
      ensures buffer[..bufferLen] == old(buffer[..bufferLen]) + Encode(c)
    {
      var v := c as int;
      if v <= 0x7F {
        buffer[bufferLen] := v;
        bufferLen := bufferLen + 1;
      } else if v <= 0x7FF {
        buffer[bufferLen], buffer[bufferLen + 1] := 0xC0 + v / 0x40, 0x80 + v % 0x40;
        bufferLen := bufferLen + 2;
      } else if v <= 0xFFFF {
        buffer[bufferLen], buffer[bufferLen + 1], buffer[bufferLen + 2] :=
          0xE0 + v / 0x1000, 0x80 + v / 0x40 % 0x40, 0x80 + v % 0x40;
        bufferLen := bufferLen + 3;
      } else {
        buffer[bufferLen], buffer[bufferLen + 1], buffer[bufferLen + 2], buffer[bufferLen + 3] :=
          0xF0 + v / 0x40000, 0x80 + v / 0x1000 % 0x40, 0x80 + v / 0x40 % 0x40, 0x80 + v % 0x40;
        bufferLen := bufferLen + 4;
      }
    }

    /** Puts a character into the buffer. */
    method Put(c: char)
      requires BufferHolds() && bufferPos == 0 && bufferLen + 4 <= BUFFER_SIZE && nuls == 0
      modifies this`bufferLen, this`unread, this`waiting, buffer
      ensures BufferHolds() && bufferLen == old(bufferLen) + |Encode(c)|
      ensures waiting == old(waiting) + [c] && unread == old(unread) + 1
    {
      hide Encode, EncodeAll;
      EncodeAllStep(waiting, c);
      assert buffer[0..bufferLen] == buffer[..bufferLen];
      Store(c);
      assert buffer[0..bufferLen] == buffer[..bufferLen];
      unread := unread + 1;
      waiting := waiting + [c];
      NoNuls(EncodeAll(old(waiting)), Encode(c));
    }

    /** Decodes one character of the raw buffer. */
    method Decode() returns (d: Decoded)
      requires RawHolds() && rawPos < rawLen && !encoding.Undetermined?
      ensures d == DecodeOne(encoding, raw[rawPos..rawLen], eof)
    {
      if encoding.Utf8Text? {
        d := DecodeUtf8Raw();
      } else {
        d := DecodeUtf16Raw(encoding.Utf16Big?);
      }
    }

    method DecodeUtf8Raw() returns (d: Decoded)
      requires RawHolds() && rawPos < rawLen
      ensures d == DecodeUtf8(raw[rawPos..rawLen], eof)
    {
      ghost var all := raw[rawPos..rawLen];
      var octet := raw[rawPos];
      var width := Width(octet);
      if width == 0 {
        return Bad(InvalidLeadingOctet, 0, octet);
      }
      if width > rawLen - rawPos {
        return if eof then Bad(IncompleteSequence, 0, -1) else More;
      }
      var value: int := if width == 1 then octet % 0x80 else if width == 2 then octet % 0x20
                        else if width == 3 then octet % 0x10 else octet % 8;
      for k := 1 to width
        invariant value == Collected(all, k) && forall j :: 1 <= j < k ==> Trailing(all[j])
      {
        octet := raw[rawPos + k];
        if !Trailing(octet) {
          return Bad(InvalidTrailingOctet, k, octet);
        }
        value := value * 0x40 + octet % 0x40;
      }
      CollectedAll(all);
      if (width == 2 && value < 0x80) || (width == 3 && value < 0x800) || (width == 4 && value < 0x10000) {
        return Bad(InvalidLength, 0, -1);
      }
      if 0xD800 <= value <= 0xDFFF || value > 0x10FFFF {
        return Bad(InvalidCharacter, 0, value);
      }
      d := Finish(value, width);
    }

    method DecodeUtf16Raw(big: bool) returns (d: Decoded)
      requires RawHolds() && rawPos < rawLen
      ensures d == DecodeUtf16(raw[rawPos..rawLen], eof, big)
    {
      ghost var all := raw[rawPos..rawLen];
      var low, high := if big then 1 else 0, if big then 0 else 1;
      if rawLen - rawPos < 2 {
        return if eof then Bad(IncompleteCharacter, 0, -1) else More;
      }
      var value: int := raw[rawPos + low];
      var upper: int := raw[rawPos + high];
      value := value + upper * 0x100;
      if LowSurrogate(value) {
        return Bad(UnexpectedLowSurrogate, 0, value);
      }
      if !HighSurrogate(value) {
        return Finish(value, 2);
      }
      if rawLen - rawPos < 4 {
        return if eof then Bad(IncompletePair, 0, -1) else More;
      }
      var value2: int := raw[rawPos + low + 2];
      upper := raw[rawPos + high + 2];
      value2 := value2 + upper * 0x100;
      if !LowSurrogate(value2) {
        return Bad(ExpectedLowSurrogate, 2, value2);
      }
      d := Finish(0x10000 + value % 0x400 * 0x400 + value2 % 0x400, 4);
    }

    /** Decodes what is in the raw buffer, up to a character that is not all there. */
    method DecodeRaw() returns (ok: bool)
      requires Valid() && !error && !encoding.Undetermined? && bufferPos == 0
      requires 2 * bufferLen + 3 * (rawLen - rawPos) + 8 <= 2 * BUFFER_SIZE
      modifies this`rawPos, this`offset, this`bufferLen, this`unread, this`waiting,
               this`error, this`problem, this`problemOffset, this`problemValue, buffer
      ensures ok ==>
        && Valid() && !error && old(waiting) <= waiting && unread >= old(unread)
        && 2 * bufferLen + 3 * (rawLen - rawPos) <= 2 * old(bufferLen) + 3 * (rawLen - old(rawPos))
        && rawLen - rawPos < 4 && (eof ==> rawPos == rawLen)
      ensures !ok ==> Failed()
    {
      hide Decoding.At, DecodeOne, EncodeAll, Encode;
      while rawPos != rawLen
        invariant Valid() && !error && bufferPos == 0 && !encoding.Undetermined?
        invariant old(waiting) <= waiting && unread >= old(unread)
        invariant 2 * bufferLen + 3 * (rawLen - rawPos) <= 2 * old(bufferLen) + 3 * (rawLen - old(rawPos))
        decreases rawLen - rawPos
      {
        var d := Decode();
        Advances(input, encoding, offset, inputPos, passed + waiting);
        EndOfRaw(encoding, input, offset, inputPos, eof);
        SizeBound(encoding, raw[rawPos..rawLen], eof);
        if d.More? {
          break;
        }
        if d.Bad? {
          error, problem, problemOffset, problemValue := true, d.problem, offset + d.at, d.value;
          return false;
        }
        Advance(d.width);
        assert passed + waiting + [d.c] == passed + (waiting + [d.c]);
        Put(d.c);
      }
      ok := true;
    }

    // ----- filling the buffer -----

    /** Moves the unread bytes to the beginning of the buffer. */
    method CompactBuffer()
      requires BufferHolds()
      modifies this`bufferPos, this`bufferLen, buffer
      ensures BufferHolds() && bufferPos == 0 && bufferLen == old(bufferLen) - old(bufferPos)
    {
      ghost var left := buffer[bufferPos..bufferLen];
      if bufferPos > 0 && bufferPos < bufferLen {
        var n, from := bufferLen - bufferPos, bufferPos;
        forall i | 0 <= i < n {
          buffer[i] := buffer[from + i];
        }
        assert forall i :: 0 <= i < n ==> buffer[i] == left[i];
        bufferLen, bufferPos := n, 0;
      } else if bufferPos == bufferLen {
        bufferLen, bufferPos := 0, 0;
      }
      assert buffer[bufferPos..bufferLen] == left;
    }

    /** A NUL behind everything; the one at the end of the input counts as unread, padding does not. */
    method PutNul(counts: bool)
      requires BufferHolds() && bufferPos == 0 && bufferLen < BUFFER_SIZE
      requires counts || nuls < counted + MAX_REQUEST
      modifies this`bufferLen, this`unread, this`nuls, this`counted, buffer
      ensures BufferHolds() && bufferLen == old(bufferLen) + 1 && nuls == old(nuls) + 1
      ensures unread == old(unread) + (if counts then 1 else 0) && counted == old(counted) + (if counts then 1 else 0)
    {
      ghost var was := buffer[0..bufferLen];
      buffer[bufferLen] := 0;
      bufferLen := bufferLen + 1;
      if counts {
        unread := unread + 1;
        counted := counted + 1;
      }
      assert buffer[0..bufferLen] == was + [0];
      OneMoreNul(EncodeAll(waiting), nuls);
      nuls := nuls + 1;
    }

    lemma FewBytes(length: nat)
      requires BufferHolds() && bufferPos == 0 && unread < length <= MAX_REQUEST
      ensures bufferLen <= 4 * (length - 1) + MAX_REQUEST
    {
      hide EncodeAll;
      AtMostFour(waiting);
      assert |buffer[0..bufferLen]| == bufferLen;
    }

    lemma EnoughBytes(length: nat)
      requires BufferHolds() && unread >= length
      ensures bufferLen - bufferPos >= length
    {
      hide EncodeAll;
      AtMostFour(waiting);
      assert |buffer[bufferPos..bufferLen]| == bufferLen - bufferPos;
    }

    lemma FewNuls(length: nat)
      requires BufferHolds() && bufferPos == 0 && bufferLen < length <= MAX_REQUEST
      ensures nuls < counted + MAX_REQUEST
    {
      assert |buffer[0..bufferLen]| == bufferLen;
    }

    /** Fills the buffer until enough characters are in it or the input has ended. */
    method Fill(length: nat) returns (ok: bool)
      requires Valid() && !error && !encoding.Undetermined? && bufferPos == 0
      requires unread < length <= MAX_REQUEST
      modifies this`rawPos, this`rawLen, this`inputPos, this`eof, this`offset, this`bufferLen, this`unread, this`waiting,
               this`nuls, this`counted, this`error, this`problem, this`problemOffset, this`problemValue, raw, buffer
      ensures ok ==>
        && Valid() && !error && bufferPos == 0 && old(waiting) <= waiting && bufferLen <= BUFFER_SIZE - MAX_REQUEST
        && (unread >= length || (nuls > 0 && unread > 0))
      ensures !ok ==> Failed()
    {
      hide Decoding.At, EncodeAll, Decodes, BufferHolds, NulsAtEnd;
      var first := true;
      while unread < length
        invariant Valid() && !error && !encoding.Undetermined? && bufferPos == 0 && old(waiting) <= waiting
        invariant !first ==> rawLen - rawPos < 4 && !eof
        invariant unread < length || bufferLen <= BUFFER_SIZE - MAX_REQUEST
        decreases |input| - inputPos, if first then 1 else 0, if eof then 0 else 1
      {
        FewBytes(length);
        if !first || rawPos == rawLen {
          RefillRaw();
        }
        first := false;
        ok := DecodeRaw();
        if !ok {
          return;
        }
        if eof {
          EndNul();
          return true;
        }
      }
      ok := true;
    }

    method RefillRaw()
      requires Valid() && rawLen - rawPos < 4
      modifies this`rawPos, this`rawLen, this`inputPos, this`eof, raw
      ensures Valid() && (eof || inputPos > old(inputPos)) && inputPos >= old(inputPos)
    {
      UpdateRawBuffer();
    }

    method EndNul()
      requires Valid() && eof && rawPos == rawLen && !encoding.Undetermined? && bufferPos == 0 && bufferLen < BUFFER_SIZE
      modifies this`bufferLen, this`unread, this`nuls, this`counted, buffer
      ensures Valid() && nuls > 0 && unread > 0 && bufferLen == old(bufferLen) + 1
    {
      PutNul(true);
    }

    /** `yaml_parser_update_buffer`: afterwards at least `length` bytes can be looked at. */
    method UpdateBuffer(length: nat) returns (ok: bool)
      requires Valid() && !error && 1 <= length <= MAX_REQUEST
      modifies this, raw, buffer
      ensures ok ==>
        && Valid() && !error && passed == old(passed) && old(waiting) <= waiting
        && bufferLen - bufferPos >= length && unread > 0
        && (unread >= length || nuls > 0)
      ensures !ok ==> Failed()
    {
      hide Decoding.At, EncodeAll, RawHolds;
      if unread >= length {
        EnoughBytes(length);
        return true;
      }
      if encoding.Undetermined? {
        DetermineEncoding();
      }
      CompactBuffer();
      ok := Fill(length);
      if !ok {
        return;
      }
      if unread >= length {
        EnoughBytes(length);
      }
      Pad(length);
    }

    /** NULs up to the length that was asked for. */
    method Pad(length: nat)
      requires Valid() && bufferPos == 0 && length <= MAX_REQUEST && bufferLen <= BUFFER_SIZE - MAX_REQUEST
      requires bufferLen >= length || nuls > 0
      modifies this`bufferLen, this`unread, this`nuls, this`counted, buffer
      ensures Valid() && bufferLen >= length && unread == old(unread) && nuls >= old(nuls)
    {
      hide Decoding.At, EncodeAll, RawHolds;
      while bufferLen < length
        invariant Valid() && bufferPos == 0 && unread == old(unread) && nuls >= old(nuls)
        invariant bufferLen >= length || nuls > 0
        decreases length - bufferLen
      {
        FewNuls(length);
        PutNul(false);
      }
    }

    // ----- the caller -----

    /** Passes one character, as `skip` of the scanner does. */
    method Skip()
      requires Valid() && !error && unread > 0
      modifies this`bufferPos, this`unread, this`passed, this`waiting, this`nuls, this`counted
      ensures Valid() && unread == old(unread) - 1
      ensures if old(waiting) == "" then passed == old(passed) && waiting == "" && nuls == old(nuls) - 1
              else passed == old(passed) + [old(waiting)[0]] && waiting == old(waiting)[1..] && nuls == old(nuls)
    {
      hide Decoding.At, EncodeAll, Encode, Width, RawHolds;
      ghost var bytes := buffer[bufferPos..bufferLen];
      FirstWidth(waiting, nuls, bytes);
      assert buffer[bufferPos] == bytes[0];
      var w := Width(buffer[bufferPos]);
      assert buffer[bufferPos + w..bufferLen] == bytes[w..];
      if waiting == "" {
        nuls, counted := nuls - 1, counted - 1;
        assert passed + waiting == passed;
      } else {
        assert passed + waiting == passed + [waiting[0]] + waiting[1..];
        passed, waiting := passed + [waiting[0]], waiting[1..];
      }
      bufferPos := bufferPos + w;
      unread := unread - 1;
    }

    /** A caller that takes one character after the other up to the NUL at the end: for any
        two schedules of reads the outcome is the same, since it depends on the input alone. */
    method Drain() returns (ok: bool)
      requires Valid() && !error && passed == ""
      modifies this, raw, buffer
      ensures ok ==> DecodeAll(input) == Text(passed, Clean)
      ensures !ok ==> Failed()
    {
      hide Decoding.At, EncodeAll, DecodeAll, RawHolds, BufferHolds;
      ghost var all := DecodeAll(input).chars;
      while true
        invariant Valid() && !error
        decreases |all| - |passed|
      {
        ok := UpdateBuffer(1);
        if !ok {
          return;
        }
        HeadOfBuffer();
        if buffer[bufferPos] == 0 {
          return true;
        }
        Skip();
      }
    }

    /** The byte at the head is NUL exactly at the end of the input. */
    lemma HeadOfBuffer()
      requires Valid() && unread > 0
      ensures 0 <= bufferPos < bufferLen <= buffer.Length
      ensures buffer[bufferPos] == 0 <==> waiting == ""
      ensures waiting == "" ==> DecodeAll(input) == Text(passed, Clean)
      ensures waiting != "" ==> |passed| < |DecodeAll(input).chars|
    {
      ghost var bytes := buffer[bufferPos..bufferLen];
      FirstWidth(waiting, nuls, bytes);
      assert buffer[bufferPos] == bytes[0];
      if waiting == "" {
        assert passed + waiting == passed && passed + "" == passed;
      } else {
        AllCharactersAccepted(input);
        assert DecodeAll(input).chars[|passed|] == waiting[0];
      }
    }
  }

  /** Three bytes for two at most. */
  lemma SizeBound(enc: Encoding, bytes: seq<byte>, eof: bool)
    requires bytes != [] && !enc.Undetermined?
    ensures var d := DecodeOne(enc, bytes, eof); d.Character? ==> 2 * |Encode(d.c)| <= 3 * d.width && |Encode(d.c)| <= 4
  {
    if enc.Utf8Text? {
      OnlyEncoding(bytes, eof);
    }
  }

  lemma EndOfRaw(enc: Encoding, input: seq<byte>, pos: nat, end: nat, eof: bool)
    requires pos < end <= |input| && !enc.Undetermined? && (eof ==> end == |input|)
    ensures var d := DecodeOne(enc, input[pos..end], eof);
      && (!d.More? ==> d == DecodeOne(enc, input[pos..end], end == |input|))
      && (d.More? ==> !eof && end - pos < 4)
  {
    if !eof && end == |input| && !DecodeOne(enc, input[pos..end], false).More? {
      MoreBytes(enc, input[pos..end], [], true);
      assert input[pos..end] + [] == input[pos..end];
    }
  }

  lemma {:induction false} AtMostFour(s: string)
    ensures |s| <= |EncodeAll(s)| <= 4 * |s|
  {
    hide Encode;
    if s != "" {
      AtMostFour(s[1..]);
    }
  }

  /** The width of the first character, or of a NUL. */
  lemma FirstWidth(waiting: string, nuls: nat, bytes: seq<byte>)
    requires bytes == EncodeAll(waiting) + Nuls(nuls) && (waiting != "" || nuls > 0)
    ensures bytes != []
    ensures waiting == "" ==> Width(bytes[0]) == 1 && bytes[0] == 0 && bytes[1..] == EncodeAll("") + Nuls(nuls - 1)
    ensures waiting != "" ==>
      && Width(bytes[0]) == |Encode(waiting[0])| <= |bytes|
      && bytes[Width(bytes[0])..] == EncodeAll(waiting[1..]) + Nuls(nuls)
      && (bytes[0] == 0 <==> waiting[0] == '\0')
  {
    if waiting != "" {
      var e := Encode(waiting[0]);
      assert bytes == e + (EncodeAll(waiting[1..]) + Nuls(nuls));
      LeadByte(waiting[0]);
      FirstIsZero(waiting[0]);
    } else {
      assert bytes == Nuls(nuls);
    }
  }

  lemma {:induction false} CharactersAccepted(enc: Encoding, input: seq<byte>, pos: nat)
    requires pos <= |input| && !enc.Undetermined?
    ensures AllAccepted(DecodeFrom(enc, input, pos).chars)
    decreases |input| - pos
  {
    if pos < |input| {
      var d := DecodeOne(enc, input[pos..], true);
      if d.Character? {
        CharactersAccepted(enc, input, pos + d.width);
        CharacterAccepted(enc, input[pos..]);
      }
    }
  }

  lemma CharacterAccepted(enc: Encoding, bytes: seq<byte>)
    requires bytes != [] && !enc.Undetermined?
    ensures var d := DecodeOne(enc, bytes, true); d.Character? ==> ReaderAccepts(d.c)
  {
    hide CodePointAt;
  }

  lemma AllCharactersAccepted(input: seq<byte>)
    ensures AllAccepted(DecodeAll(input).chars)
  {
    var (enc, start) := Detect(input);
    CharactersAccepted(enc, input, start);
  }

  lemma FirstIsZero(c: char)
    ensures Encode(c)[0] == 0 <==> c == '\0'
  {}

  lemma OneMoreNul(a: seq<byte>, n: nat)
    ensures a + Nuls(n) + [0] == a + Nuls(n + 1)
  {}

  lemma EncodeAllStep(s: string, c: char)
    ensures EncodeAll(s + [c]) == EncodeAll(s) + Encode(c)
  {
    EncodeAllConcat(s, [c]);
    assert [c][1..] == "";
    assert EncodeAll([c]) == Encode(c) + [];
  }

  lemma NoNuls(a: seq<byte>, b: seq<byte>)
    ensures a + Nuls(0) + b == a + b == a + b + Nuls(0)
  {}

  /** The value collected from the first k bytes of a UTF-8 sequence. */
  function Collected(all: seq<byte>, k: nat): int
    requires 1 <= k <= |all|
  {
    if k == 1 then
      var w := Width(all[0]);
      if w == 1 then all[0] % 0x80 else if w == 2 then all[0] % 0x20 else if w == 3 then all[0] % 0x10 else all[0] % 8
    else Collected(all, k - 1) * 0x40 + all[k - 1] % 0x40
  }

  lemma CollectedAll(all: seq<byte>)
    requires all != [] && 0 < Width(all[0]) <= |all|
    ensures Collected(all, Width(all[0])) == CodePointAt(all, 0)
  {
    var w := Width(all[0]);
    if w >= 2 {
      assert Collected(all, 2) == Collected(all, 1) * 0x40 + all[1] % 0x40;
    }
    if w >= 3 {
      assert Collected(all, 3) == Collected(all, 2) * 0x40 + all[2] % 0x40;
    }
    if w >= 4 {
      assert Collected(all, 4) == Collected(all, 3) * 0x40 + all[3] % 0x40;
    }
  }
}
