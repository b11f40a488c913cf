/**
 * The base64 codec of stdio_shader_translator/base64.hpp.
 *
 * The decoder is the RFC 4648 section 4 decoder with two lenient steps:
 * characters outside the alphabet and '=' are dropped first, and decoding
 * stops at the first '='. The encoder, as written, appends the alphabet's
 * first characters (indexed by the loop counter) instead of the sextets it
 * computes, so its output depends only on the input's length.
 */
module Base64 {

  /**
   * An `unsigned char`. Its shifts and masks are written as arithmetic:
   * `x << k` truncated to a byte is `(x * 2^k) % 256`, `(x & m) >> k` for a
   * contiguous mask m is a division and a remainder.
   */
  type byte = b: int | 0 <= b < 256

  /** Entry k of `base64_chars`, the RFC 4648 section 4 alphabet "A-Z a-z 0-9 + /". */
  function AlphabetChar(k: int): char
    requires 0 <= k < 64
  {
    if k < 26 then ('A' as int + k) as char
    else if k < 52 then ('a' as int + k - 26) as char
    else if k < 62 then ('0' as int + k - 52) as char
    else if k == 62 then '+'
    else '/'
  }

  /** `base64_chars`. */
  function Base64Chars(): (s: string)
    ensures |s| == 64 && forall k | 0 <= k < 64 :: s[k] == AlphabetChar(k)
  {
    seq(64, k requires 0 <= k < 64 => AlphabetChar(k))
  }

  /** `is_base64`: `isalnum` in the C locale, '+' or '/'. */
  predicate IsBase64(c: char) {
    ('A' <= c <= 'Z') || ('a' <= c <= 'z') || ('0' <= c <= '9') || c == '+' || c == '/'
  }

  /** The characters `decode` keeps before decoding: the alphabet and '='. */
  predicate Kept(c: char) {
    IsBase64(c) || c == '='
  }

  /** The alphabet position of an alphabet character. */
  function SextetOf(c: char): (k: nat)
    requires IsBase64(c)
    ensures k < 64 && AlphabetChar(k) == c
  {
    if 'A' <= c <= 'Z' then c as int - 'A' as int
    else if 'a' <= c <= 'z' then c as int - 'a' as int + 26
    else if '0' <= c <= '9' then c as int - '0' as int + 52
    else if c == '+' then 62
    else 63
  }

  /** `is_base64` holds exactly of the characters of `base64_chars`. */
  lemma {:induction false} IsBase64IsAlphabet(c: char)
    ensures IsBase64(c) <==> c in Base64Chars()
  {
    if IsBase64(c) {
      assert Base64Chars()[SextetOf(c)] == c;
    }
  }

  /**
   * `static_cast<unsigned char>(base64_chars.find(code))`: the position of
   * the character with this code in `base64_chars`, or 255 (npos truncated
   * to an unsigned char). FindIsLinearSearch shows that this is what a
   * left-to-right search finds.
   */
  function Find(code: byte): (k: byte)
    ensures k == 255 || (k < 64 && AlphabetChar(k) as int == code)
  {
    if IsBase64(code as char) then SextetOf(code as char) else 255
  }

  /** A left-to-right search of the alphabet from position k on. */
  function FindFrom(code: byte, k: nat): (r: byte)
    requires k <= 64
    decreases 64 - k
  {
    if k == 64 then 255
    else if AlphabetChar(k) as int == code then k
    else FindFrom(code, k + 1)
  }

  /** The `char` a character is stored as in `char_array_4`: its code truncated to eight bits. */
  function Code(c: char): byte {
    c as int % 256
  }

  /** Each alphabet position holds an alphabet character that maps back to that position. */
  lemma AlphabetCharSextet(k: int)
    requires 0 <= k < 64
    ensures IsBase64(AlphabetChar(k)) && SextetOf(AlphabetChar(k)) == k
  {
  }

  lemma {:induction false} FindFromMatches(code: byte, k: nat)
    requires k <= 64
    requires IsBase64(code as char) ==> k <= SextetOf(code as char)
    ensures FindFrom(code, k) == Find(code)
    decreases 64 - k
  {
    if k < 64 {
      AlphabetCharSextet(k);
      if AlphabetChar(k) as int != code {
        FindFromMatches(code, k + 1);
      }
    }
  }

  /** `find` returns the first position holding the character, or npos (255 once truncated). */
  lemma FindIsLinearSearch(code: byte)
    ensures Find(code) == FindFrom(code, 0)
  {
    FindFromMatches(code, 0);
  }

  /** `find` maps an alphabet character's code to its position. */
  lemma FindCode(c: char)
    requires IsBase64(c)
    ensures Find(Code(c)) == SextetOf(c)
  {
  }

  /** The zero byte a partial group is padded with is not in the alphabet: `find` gives npos, 255. */
  lemma FindZero()
    ensures Find(0) == 255
  {
  }

  /**
   * The three bytes `char_array_3` receives from the four entries of `char_array_4`:
   * (a << 2) + ((b & 0x30) >> 4), ((b & 0xf) << 4) + ((c & 0x3c) >> 2) and
   * ((c & 0x3) << 6) + d, each truncated to an unsigned char.
   */
  function Unpack(a: byte, b: byte, c: byte, d: byte): (r: seq<byte>)
    ensures |r| == 3
  {
    [(a * 4 + (b / 16) % 4) % 256, ((b % 16) * 16 + (c / 4) % 16) % 256, ((c % 4) * 64 + d) % 256]
  }

  /** The `char_array_4` entry j of a group after `find`: padding past the group's end holds find(0). */
  function TailIndex(cs: seq<char>, j: nat): byte {
    if j < |cs| then Find(Code(cs[j])) else Find(0)
  }

  /** The three bytes of one group of at most four characters. */
  function Group(cs: seq<char>): (r: seq<byte>)
    ensures |r| == 3
  {
    Unpack(TailIndex(cs, 0), TailIndex(cs, 1), TailIndex(cs, 2), TailIndex(cs, 3))
  }

  /** Decoding of the characters before the first '=': whole groups give three bytes, a tail of t gives t - 1. */
  function DecodeChars(cs: seq<char>): (r: seq<byte>)
    decreases |cs|
  {
    if |cs| >= 4 then Group(cs[..4]) + DecodeChars(cs[4..]) else TailBytes(cs)
  }

  /** A final partial group of t characters gives the first t - 1 of its bytes. */
  function TailBytes(cs: seq<char>): (r: seq<byte>)
    requires |cs| < 4
  {
    if cs == [] then [] else Group(cs)[..|cs| - 1]
  }

  /** The `remove_if` step: the kept characters, in order. */
  function Filter(s: string): (r: string)
    ensures forall i | 0 <= i < |r| :: Kept(r[i])
    ensures |r| <= |s|
  {
    if s == [] then [] else Filter(s[..|s| - 1]) + (if Kept(s[|s| - 1]) then [s[|s| - 1]] else [])
  }

  /** The characters before the first '='. */
  function UntilPad(s: string): (r: string)
    ensures |r| <= |s| && r == s[..|r|]
    ensures '=' !in r
    ensures |r| < |s| ==> s[|r|] == '='
  {
    if s == [] || s[0] == '=' then [] else [s[0]] + UntilPad(s[1..])
  }

  /** The characters `decode` decodes: the kept characters before the first '='. */
  function Decoded(s: string): string {
    UntilPad(Filter(s))
  }

  /** What `decode` returns. */
  function DecodeSpec(s: string): seq<byte> {
    DecodeChars(Decoded(s))
  }

  /** Only alphabet characters are decoded. */
  lemma DecodedIsAlphabet(s: string)
    ensures forall i | 0 <= i < |Decoded(s)| :: IsBase64(Decoded(s)[i])
  {
    var f := Filter(s);
    var cs := UntilPad(f);
    forall i | 0 <= i < |cs| ensures IsBase64(cs[i]) {
      assert cs[i] == f[i] && cs[i] in cs;
    }
  }

  lemma {:induction false} DecodeCharsAppend(a: seq<char>, b: seq<char>, groups: nat)
    requires |a| == 4 * groups
    ensures DecodeChars(a + b) == DecodeChars(a) + DecodeChars(b)
    decreases groups
  {
    if groups > 0 {
      assert (a + b)[4..] == a[4..] + b;
      assert (a + b)[..4] == a[..4];
      DecodeCharsAppend(a[4..], b, groups - 1);
    } else {
      assert a + b == b;
    }
  }

  // ---------------------------------------------------------------------
  // decode: the remove_if/erase step, then the group loop
  // ---------------------------------------------------------------------

  /** `str.erase(std::remove_if(...), str.end())`, compacting a copy of the input in place. */
  method RemoveNonBase64(encoded: string) returns (str: string)
    ensures str == Filter(encoded)
  {
    var a := new char[|encoded|](i requires 0 <= i < |encoded| => encoded[i]);
    var w, r := 0, 0;
    while r < a.Length
      invariant 0 <= w <= r <= a.Length == |encoded|
      invariant a[..w] == Filter(encoded[..r])
      invariant forall j | r <= j < a.Length :: a[j] == encoded[j]
    {
      assert encoded[..r + 1][..r] == encoded[..r];
      if Kept(a[r]) {
        a[w] := a[r];
        w := w + 1;
      }
      r := r + 1;
    }
    assert encoded[..r] == encoded;
    str := a[..w];
  }

  /** `for (j = n; j < 4; ++j) char_array_4[j] = 0;` */
  method ZeroFrom(charArray4: array<byte>, n: nat)
    requires n <= charArray4.Length
    modifies charArray4
    ensures forall k | 0 <= k < n :: charArray4[k] == old(charArray4[k])
    ensures forall k | n <= k < charArray4.Length :: charArray4[k] == 0
  {
    var j := n;
    while j < charArray4.Length
      invariant n <= j <= charArray4.Length
      invariant forall k | 0 <= k < n :: charArray4[k] == old(charArray4[k])
      invariant forall k | n <= k < j :: charArray4[k] == 0
    {
      charArray4[j] := 0;
      j := j + 1;
    }
  }

  /** `char_array_4[j] = static_cast<unsigned char>(base64_chars.find(char_array_4[j]))` for every entry. */
  method FindEach(charArray4: array<byte>)
    modifies charArray4
    ensures forall k | 0 <= k < charArray4.Length :: charArray4[k] == Find(old(charArray4[k]))
  {
    var j := 0;
    while j < charArray4.Length
      invariant 0 <= j <= charArray4.Length
      invariant forall k | 0 <= k < j :: charArray4[k] == Find(old(charArray4[k]))
      invariant forall k | j <= k < charArray4.Length :: charArray4[k] == old(charArray4[k])
    {
      charArray4[j] := Find(charArray4[j]);
      j := j + 1;
    }
  }

  /** The three assignments to `char_array_3` from the four sextets in `char_array_4`. */
  method UnpackInto(charArray4: array<byte>, charArray3: array<byte>)
    requires charArray4.Length == 4 && charArray3.Length == 3
    modifies charArray3
    ensures charArray3[..] == Unpack(charArray4[0], charArray4[1], charArray4[2], charArray4[3])
  {
    charArray3[0] := (charArray4[0] as int * 4 + (charArray4[1] / 16) % 4) % 256;
    charArray3[1] := ((charArray4[1] as int % 16) * 16 + (charArray4[2] / 4) % 16) % 256;
    charArray3[2] := ((charArray4[2] as int % 4) * 64 + charArray4[3]) % 256;
  }

  /**
   * The work `decode` does on a group of the n characters of str from lo on,
   * held as codes in `char_array_4`: zero the entries from n on, map all four
   * through `find` and unpack them into `char_array_3`.
   */
  method DecodeGroup(charArray4: array<byte>, charArray3: array<byte>, n: nat, ghost str: string, ghost lo: nat)
    requires charArray4.Length == 4 && charArray3.Length == 3
    requires 1 <= n <= 4 && lo + n <= |str|
    requires forall k | 0 <= k < n :: charArray4[k] == Code(str[lo + k])
    modifies charArray4, charArray3
    ensures charArray3[..] == Group(str[lo..lo + n])
  {
    ZeroFrom(charArray4, n);
    FindEach(charArray4);
    ghost var cs := str[lo..lo + n];
    assert charArray4[0] == TailIndex(cs, 0);
    assert charArray4[1] == TailIndex(cs, 1);
    assert charArray4[2] == TailIndex(cs, 2);
    assert charArray4[3] == TailIndex(cs, 3);
    UnpackInto(charArray4, charArray3);
  }

  /** `for (j = 0; j < count; j++) ret += char_array_3[j];` */
  method AppendBytes(ret: seq<byte>, charArray3: array<byte>, count: nat) returns (r: seq<byte>)
    requires count <= charArray3.Length
    ensures r == ret + charArray3[..count]
  {
    r := ret;
    var j := 0;
    while j < count
      invariant 0 <= j <= count
      invariant r == ret + charArray3[..j]
    {
      r := r + [charArray3[j]];
      j := j + 1;
    }
  }

  /** `decode(encoded_string)`: the `remove_if` step, then the group loop. */
  method Decode(encodedString: string) returns (ret: seq<byte>)
    ensures ret == DecodeSpec(encodedString)
  {
    var str := RemoveNonBase64(encodedString);
    ret := DecodeKept(str);
  }

  /** The group loop of `decode`, over the characters the `remove_if` step kept. */
  method DecodeKept(str: string) returns (ret: seq<byte>)
    requires forall i | 0 <= i < |str| :: Kept(str[i])
    ensures ret == DecodeChars(UntilPad(str))
  {
    var inLen, i, in_ := |str|, 0, 0;
    var charArray4 := new byte[4];
    var charArray3 := new byte[3];
    ret := [];
    ghost var groups := 0;
    while true
      invariant 0 <= i < 4 && in_ == 4 * groups + i <= |str| && inLen == |str| - in_
      invariant in_ <= |UntilPad(str)|
      invariant forall j | 0 <= j < i :: charArray4[j] == Code(str[4 * groups + j])
      invariant ret == DecodeChars(str[..4 * groups])
      decreases inLen
    {
      if inLen == 0 { break; }
      inLen := inLen - 1;
      if str[in_] == '=' || !IsBase64(str[in_]) { break; }
      ret, i, groups := PushChar(charArray4, charArray3, ret, str[in_], str, groups, i);
      in_ := in_ + 1;
    }
    assert in_ < |str| ==> Kept(str[in_]);
    assert in_ == |UntilPad(str)|;
    ret := FlushTail(charArray4, charArray3, ret, str, groups, i);
  }

  /** One more character of the current group, flushing the group when it is the fourth. */
  method PushChar(charArray4: array<byte>, charArray3: array<byte>, ret: seq<byte>, c: char, ghost str: string, ghost groups: nat, i: nat)
    returns (ret': seq<byte>, i': nat, ghost groups': nat)
    requires charArray4.Length == 4 && charArray3.Length == 3
    requires i < 4 && 4 * groups + i < |str| && c == str[4 * groups + i]
    requires forall j | 0 <= j < i :: charArray4[j] == Code(str[4 * groups + j])
    requires ret == DecodeChars(str[..4 * groups])
    modifies charArray4, charArray3
    ensures i' < 4 && 4 * groups' + i' == 4 * groups + i + 1
    ensures forall j | 0 <= j < i' :: charArray4[j] == Code(str[4 * groups' + j])
    ensures ret' == DecodeChars(str[..4 * groups'])
  {
    charArray4[i] := Code(c);
    assert forall j | 0 <= j <= i :: charArray4[j] == Code(str[4 * groups + j]);
    if i == 3 {
      ret' := FlushGroup(charArray4, charArray3, ret, str, groups);
      i', groups' := 0, groups + 1;
      assert 4 * groups' == 4 * groups + 4;
    } else {
      ret', i', groups' := ret, i + 1, groups;
      assert forall j | 0 <= j < i' :: charArray4[j] == Code(str[4 * groups' + j]);
    }
  }

  /** After the loop: the `i` characters of an unfinished group give `i - 1` more bytes. */
  method FlushTail(charArray4: array<byte>, charArray3: array<byte>, ret: seq<byte>, ghost str: string, ghost groups: nat, i: nat)
    returns (ret': seq<byte>)
    requires charArray4.Length == 4 && charArray3.Length == 3
    requires i < 4 && 4 * groups + i == |UntilPad(str)|
    requires forall k | 0 <= k < i :: charArray4[k] == Code(str[4 * groups + k])
    requires ret == DecodeChars(str[..4 * groups])
    modifies charArray4, charArray3
    ensures ret' == DecodeChars(UntilPad(str))
  {
    ret' := ret;
    if i != 0 {
      DecodeGroup(charArray4, charArray3, i, str, 4 * groups);
      ret' := AppendBytes(ret, charArray3, i - 1);
    }
    DecodeLastGroup(str, groups, i);
  }

  /** A fourth character completes a group: its three bytes are decoded and appended. */
  method FlushGroup(charArray4: array<byte>, charArray3: array<byte>, ret: seq<byte>, ghost str: string, ghost groups: nat)
    returns (ret': seq<byte>)
    requires charArray4.Length == 4 && charArray3.Length == 3 && 4 * groups + 4 <= |str|
    requires forall k | 0 <= k < 4 :: charArray4[k] == Code(str[4 * groups + k])
    requires ret == DecodeChars(str[..4 * groups])
    modifies charArray4, charArray3
    ensures ret' == DecodeChars(str[..4 * groups + 4])
  {
    DecodeGroup(charArray4, charArray3, 4, str, 4 * groups);
    ret' := AppendBytes(ret, charArray3, 3);
    DecodeNextGroup(str, groups);
  }

  /** One more whole group appends its three bytes. */
  lemma DecodeNextGroup(str: string, groups: nat)
    requires 4 * groups + 4 <= |str|
    ensures DecodeChars(str[..4 * groups + 4]) == DecodeChars(str[..4 * groups]) + Group(str[4 * groups..4 * groups + 4])
  {
    var quad := str[4 * groups..4 * groups + 4];
    assert str[..4 * groups + 4] == str[..4 * groups] + quad;
    DecodeCharsAppend(str[..4 * groups], quad, groups);
    assert quad[..4] == quad && quad[4..] == [];
  }

  /** Where the loop of `decode` stops, the final partial group completes the result. */
  lemma DecodeLastGroup(str: string, groups: nat, i: nat)
    requires i < 4 && 4 * groups + i == |UntilPad(str)|
    ensures DecodeChars(UntilPad(str)) == DecodeChars(str[..4 * groups]) + TailBytes(str[4 * groups..4 * groups + i])
  {
    var n := 4 * groups + i;
    var cs := str[..n];
    assert UntilPad(str) == cs;
    assert cs[..4 * groups] == str[..4 * groups];
    assert cs[4 * groups..] == str[4 * groups..n];
    DecodePartialGroup(cs, groups);
  }

  /** Characters made of whole groups and a tail of fewer than four decode group by group. */
  lemma DecodePartialGroup(cs: seq<char>, groups: nat)
    requires 4 * groups <= |cs| < 4 * groups + 4
    ensures DecodeChars(cs) == DecodeChars(cs[..4 * groups]) + TailBytes(cs[4 * groups..])
  {
    assert cs == cs[..4 * groups] + cs[4 * groups..];
    DecodeCharsAppend(cs[..4 * groups], cs[4 * groups..], groups);
  }

  /** `base64_decode_to_string`: the decoded bytes, each byte one character. */
  function BytesToString(bytes: seq<byte>): (r: string)
    ensures |r| == |bytes|
    ensures forall i | 0 <= i < |r| :: r[i] as int == bytes[i]
  {
    seq(|bytes|, i requires 0 <= i < |bytes| => bytes[i] as char)
  }

  method DecodeToString(s: string) returns (r: string)
    ensures r == BytesToString(DecodeSpec(s))
  {
    var bytes := Decode(s);
    r := BytesToString(bytes);
  }

  // ---------------------------------------------------------------------
  // Properties of the decoder
  // ---------------------------------------------------------------------

  lemma {:induction false} FilterAppend(a: string, b: string)
    ensures Filter(a + b) == Filter(a) + Filter(b)
    decreases |b|
  {
    if b == [] {
      assert a + b == a;
    } else {
      assert (a + b)[..|a + b| - 1] == a + b[..|b| - 1];
      FilterAppend(a, b[..|b| - 1]);
    }
  }

  lemma {:induction false} FilterOfKept(s: string)
    requires forall i | 0 <= i < |s| :: Kept(s[i])
    ensures Filter(s) == s
    decreases |s|
  {
    if s != [] {
      FilterOfKept(s[..|s| - 1]);
    }
  }

  /** Dropping the ignored characters first changes nothing. */
  lemma DecodeIgnoresForeign(s: string)
    ensures DecodeSpec(Filter(s)) == DecodeSpec(s)
  {
    FilterOfKept(Filter(s));
  }

  /** A character outside the alphabet and '=' may be inserted anywhere. */
  lemma DecodeSkipsForeignChar(a: string, c: char, b: string)
    requires !Kept(c)
    ensures DecodeSpec(a + [c] + b) == DecodeSpec(a + b)
  {
    FilterAppend(a + [c], b);
    FilterAppend(a, [c]);
    FilterAppend(a, b);
    assert [c][..0] == [];
    assert Filter([c]) == [];
    assert Filter(a + [c] + b) == Filter(a + b);
  }

  lemma {:induction false} UntilPadAppend(a: string, b: string)
    ensures UntilPad(a + b) == if '=' in a then UntilPad(a) else a + UntilPad(b)
    decreases |a|
  {
    if a != [] {
      assert (a + b)[1..] == a[1..] + b;
      UntilPadAppend(a[1..], b);
      assert '=' in a <==> a[0] == '=' || '=' in a[1..] by {
        assert a == [a[0]] + a[1..];
      }
    } else {
      assert a + b == b;
    }
  }

  /** Decoding stops at the first '=': nothing after it matters. */
  lemma DecodeStopsAtPad(a: string, b: string)
    ensures DecodeSpec(a + "=" + b) == DecodeSpec(a)
  {
    FilterAroundPad(a, b);
    UntilPadBeforePad(Filter(a), Filter(b));
    assert Decoded(a + "=" + b) == Decoded(a);
  }

  /** The '=' itself survives the `remove_if` step. */
  lemma FilterAroundPad(a: string, b: string)
    ensures Filter(a + "=" + b) == Filter(a) + ("=" + Filter(b))
  {
    FilterAppend(a + "=", b);
    FilterAppend(a, "=");
    FilterPad();
    assert Filter(a) + "=" + Filter(b) == Filter(a) + ("=" + Filter(b));
  }

  lemma FilterPad()
    ensures Filter("=") == "="
  {
    assert "="[..0] == [];
  }

  lemma UntilPadBeforePad(f: string, g: string)
    ensures UntilPad(f + ("=" + g)) == UntilPad(f)
  {
    UntilPadAppend(f, "=" + g);
    UntilPadAppend(f, []);
    assert f + [] == f;
  }

  /** The number of bytes decoded from k characters. */
  function DecodedLength(k: nat): nat {
    3 * (k / 4) + (if k % 4 == 0 then 0 else k % 4 - 1)
  }

  lemma {:induction false} DecodeCharsLength(cs: seq<char>)
    ensures |DecodeChars(cs)| == DecodedLength(|cs|)
    decreases |cs|
  {
    if |cs| >= 4 {
      DecodeCharsLength(cs[4..]);
    }
  }

  /** With k alphabet characters before the first '=', decode returns 3(k div 4) + max(k mod 4 - 1, 0) bytes. */
  lemma DecodeLength(s: string)
    ensures |DecodeSpec(s)| == DecodedLength(|Decoded(s)|)
  {
    DecodeCharsLength(Decoded(s));
  }

  /** The output is empty exactly when at most one alphabet character precedes the first '='. */
  lemma DecodeEmptyIff(s: string)
    ensures DecodeSpec(s) == [] <==> |Decoded(s)| <= 1
  {
    DecodeLength(s);
  }

  /** "====" and "A" both decode to nothing. */
  lemma DecodeEmptyExamples()
    ensures DecodeSpec("====") == [] && DecodeSpec("A") == []
  {
    DecodeEmptyIff("====");
    DecodeEmptyIff("A");
    assert Filter("====") == "====" by { FilterOfKept("===="); }
    assert Filter("A") == "A" by { FilterOfKept("A"); }
  }

  // ---------------------------------------------------------------------
  // The reference RFC 4648 section 4 encoder and the decoder round trip
  // ---------------------------------------------------------------------

  /**
   * The four sextets of a three-byte group, as `base64_encode` computes them
   * into `char_array_4` (missing bytes are zero).
   */
  function Sextets(b0: byte, b1: byte, b2: byte): (q: seq<byte>)
    ensures |q| == 4 && forall i | 0 <= i < 4 :: q[i] < 64
  {
    [b0 / 4, (b0 % 4) * 16 + b1 / 16, (b1 % 16) * 4 + b2 / 64, b2 % 64]
  }

  /** The alphabet character of a sextet. */
  function SextetChar(k: byte): (c: char)
    requires k < 64
    ensures IsBase64(c) && SextetOf(c) == k
  {
    AlphabetCharSextet(k);
    AlphabetChar(k)
  }

  /** The alphabet characters of the RFC 4648 encoding of buf (without '='). */
  function Rfc4648Body(buf: seq<byte>): (r: string)
    ensures forall i | 0 <= i < |r| :: IsBase64(r[i])
    decreases |buf|
  {
    if |buf| >= 3 then
      var q := Sextets(buf[0], buf[1], buf[2]);
      [SextetChar(q[0]), SextetChar(q[1]), SextetChar(q[2]), SextetChar(q[3])] + Rfc4648Body(buf[3..])
    else if |buf| == 2 then
      var q := Sextets(buf[0], buf[1], 0);
      [SextetChar(q[0]), SextetChar(q[1]), SextetChar(q[2])]
    else if |buf| == 1 then
      var q := Sextets(buf[0], 0, 0);
      [SextetChar(q[0]), SextetChar(q[1])]
    else []
  }

  /** RFC 4648 section 4 base64 of buf, with '=' padding. */
  function Rfc4648Encode(buf: seq<byte>): string {
    Rfc4648Body(buf) + (if |buf| % 3 == 1 then "==" else if |buf| % 3 == 2 then "=" else "")
  }

  /** The RFC 4648 body has 4 characters per full group, plus 2 or 3 for a tail of 1 or 2 bytes. */
  lemma {:induction false} Rfc4648BodyLength(buf: seq<byte>)
    ensures |Rfc4648Body(buf)| == (4 * |buf| + 2) / 3
    decreases |buf|
  {
    if |buf| >= 3 {
      Rfc4648BodyLength(buf[3..]);
    }
  }

  /** The RFC 4648 encoding of n bytes has 4 * ceil(n / 3) characters. */
  lemma Rfc4648Length(buf: seq<byte>)
    ensures |Rfc4648Encode(buf)| == 4 * ((|buf| + 2) / 3)
  {
    Rfc4648BodyLength(buf);
    var n := |buf|;
    var q := n / 3;
    assert n == 3 * q + n % 3;
    assert (n + 2) / 3 == q + (if n % 3 == 0 then 0 else 1);
    assert (4 * n + 2) / 3 == 4 * q + (if n % 3 == 0 then 0 else if n % 3 == 1 then 2 else 3);
  }

  /** The first unpacked byte only needs the first two sextets. */
  lemma RoundTripByte0(b0: byte, b1: byte, c: byte, d: byte)
    ensures Unpack(b0 / 4, (b0 % 4) * 16 + b1 / 16, c, d)[0] == b0
  {
    var q1 := (b0 % 4) * 16 + b1 / 16;
    assert q1 / 16 == b0 % 4;
    assert (b0 / 4) * 4 + b0 % 4 == b0;
  }

  /** The second unpacked byte only needs the second and third sextets. */
  lemma RoundTripByte1(b0: byte, b1: byte, b2: byte, d: byte)
    ensures Unpack(b0 / 4, (b0 % 4) * 16 + b1 / 16, (b1 % 16) * 4 + b2 / 64, d)[1] == b1
  {
    var q1 := (b0 % 4) * 16 + b1 / 16;
    var q2 := (b1 % 16) * 4 + b2 / 64;
    assert q1 % 16 == b1 / 16;
    assert q2 / 4 == b1 % 16;
    assert (q2 / 4) % 16 == b1 % 16;
    assert (b1 / 16) * 16 + b1 % 16 == b1;
    assert Unpack(b0 / 4, q1, q2, d)[1] == ((b1 / 16) * 16 + b1 % 16) % 256;
  }

  /** The third unpacked byte only needs the third and fourth sextets. */
  lemma RoundTripByte2(a: byte, x: byte, b1: byte, b2: byte)
    ensures Unpack(a, x, (b1 % 16) * 4 + b2 / 64, b2 % 64)[2] == b2
  {
    var q2 := (b1 % 16) * 4 + b2 / 64;
    assert q2 % 4 == b2 / 64;
    assert (b2 / 64) * 64 + b2 % 64 == b2;
  }

  lemma GroupRoundTrip(b0: byte, b1: byte, b2: byte)
    ensures var q := Sextets(b0, b1, b2); Unpack(q[0], q[1], q[2], q[3]) == [b0, b1, b2]
  {
    var q1 := (b0 % 4) * 16 + b1 / 16;
    var q2 := (b1 % 16) * 4 + b2 / 64;
    assert Sextets(b0, b1, b2) == [b0 / 4, q1, q2, b2 % 64];
    RoundTripByte0(b0, b1, q2, b2 % 64);
    RoundTripByte1(b0, b1, b2, b2 % 64);
    RoundTripByte2(b0 / 4, q1, b1, b2);
  }

  lemma PairRoundTrip(b0: byte, b1: byte)
    ensures var q := Sextets(b0, b1, 0); Unpack(q[0], q[1], q[2], 255)[..2] == [b0, b1]
  {
    var q := Sextets(b0, b1, 0);
    RoundTripByte0(b0, b1, q[2], 255);
    RoundTripByte1(b0, b1, 0, 255);
  }

  lemma SingleRoundTrip(b0: byte)
    ensures var q := Sextets(b0, 0, 0); Unpack(q[0], q[1], 255, 255)[..1] == [b0]
  {
    RoundTripByte0(b0, 0, 255, 255);
  }

  /** `find` recovers the sextets of a group of four alphabet characters. */
  lemma GroupOfFour(q0: byte, q1: byte, q2: byte, q3: byte)
    requires q0 < 64 && q1 < 64 && q2 < 64 && q3 < 64
    ensures Group([SextetChar(q0), SextetChar(q1), SextetChar(q2), SextetChar(q3)]) == Unpack(q0, q1, q2, q3)
  {
    var cs := [SextetChar(q0), SextetChar(q1), SextetChar(q2), SextetChar(q3)];
    FindCode(cs[0]); FindCode(cs[1]); FindCode(cs[2]); FindCode(cs[3]);
    assert TailIndex(cs, 0) == q0 && TailIndex(cs, 1) == q1 && TailIndex(cs, 2) == q2 && TailIndex(cs, 3) == q3;
  }

  /** A group of three characters is padded with find(0) = 255. */
  lemma GroupOfThree(q0: byte, q1: byte, q2: byte)
    requires q0 < 64 && q1 < 64 && q2 < 64
    ensures Group([SextetChar(q0), SextetChar(q1), SextetChar(q2)]) == Unpack(q0, q1, q2, 255)
  {
    var cs := [SextetChar(q0), SextetChar(q1), SextetChar(q2)];
    FindCode(cs[0]); FindCode(cs[1]); FindCode(cs[2]); FindZero();
    assert TailIndex(cs, 0) == q0 && TailIndex(cs, 1) == q1 && TailIndex(cs, 2) == q2 && TailIndex(cs, 3) == 255;
  }

  /** A group of two characters is padded with find(0) = 255 twice. */
  lemma GroupOfTwo(q0: byte, q1: byte)
    requires q0 < 64 && q1 < 64
    ensures Group([SextetChar(q0), SextetChar(q1)]) == Unpack(q0, q1, 255, 255)
  {
    var cs := [SextetChar(q0), SextetChar(q1)];
    FindCode(cs[0]); FindCode(cs[1]); FindZero();
    assert TailIndex(cs, 0) == q0 && TailIndex(cs, 1) == q1 && TailIndex(cs, 2) == 255 && TailIndex(cs, 3) == 255;
  }

  lemma {:induction false} DecodeRfc4648Body(buf: seq<byte>)
    ensures DecodeChars(Rfc4648Body(buf)) == buf
    decreases |buf|
  {
    if |buf| >= 3 {
      DecodeFirstGroup(buf);
      DecodeRfc4648Body(buf[3..]);
      assert buf == buf[..3] + buf[3..];
    } else if |buf| == 2 {
      var q := Sextets(buf[0], buf[1], 0);
      GroupOfThree(q[0], q[1], q[2]);
      PairRoundTrip(buf[0], buf[1]);
    } else if |buf| == 1 {
      var q := Sextets(buf[0], 0, 0);
      GroupOfTwo(q[0], q[1]);
      SingleRoundTrip(buf[0]);
    }
  }

  /** The four characters RFC 4648 gives three bytes decode back to those bytes. */
  lemma QuadRoundTrip(buf: seq<byte>)
    requires |buf| >= 3
    ensures var q := Sextets(buf[0], buf[1], buf[2]);
      Group([SextetChar(q[0]), SextetChar(q[1]), SextetChar(q[2]), SextetChar(q[3])]) == buf[..3]
  {
    var q := Sextets(buf[0], buf[1], buf[2]);
    GroupOfFour(q[0], q[1], q[2], q[3]);
    GroupRoundTrip(buf[0], buf[1], buf[2]);
    assert buf[..3] == [buf[0], buf[1], buf[2]];
  }

  /** The first four characters of the encoding of at least three bytes decode to those three bytes. */
  lemma DecodeFirstGroup(buf: seq<byte>)
    requires |buf| >= 3
    ensures DecodeChars(Rfc4648Body(buf)) == buf[..3] + DecodeChars(Rfc4648Body(buf[3..]))
  {
    var q := Sextets(buf[0], buf[1], buf[2]);
    var quad := [SextetChar(q[0]), SextetChar(q[1]), SextetChar(q[2]), SextetChar(q[3])];
    DecodeCharsCons(quad, Rfc4648Body(buf[3..]));
    QuadRoundTrip(buf);
  }

  /** A whole group in front decodes on its own. */
  lemma DecodeCharsCons(quad: string, rest: string)
    requires |quad| == 4
    ensures DecodeChars(quad + rest) == Group(quad) + DecodeChars(rest)
  {
    var e := quad + rest;
    assert e[..4] == quad && e[4..] == rest;
  }

  /** Decoding a correct RFC 4648 encoding of buf gives buf back. */
  lemma DecodeRfc4648Encode(buf: seq<byte>)
    ensures DecodeSpec(Rfc4648Encode(buf)) == buf
  {
    var body := Rfc4648Body(buf);
    var pad: string := if |buf| % 3 == 1 then "==" else if |buf| % 3 == 2 then "=" else "";
    var e := body + pad;
    assert forall i | 0 <= i < |e| :: Kept(e[i]) by {
      forall i | 0 <= i < |e| ensures Kept(e[i]) {
        if i < |body| { assert e[i] == body[i]; } else { assert e[i] == pad[i - |body|]; }
      }
    }
    FilterOfKept(e);
    UntilPadAppend(body, pad);
    assert UntilPad(pad) == [];
    assert body + [] == body;
    DecodeRfc4648Body(buf);
  }

  // ---------------------------------------------------------------------
  // base64_encode as written
  // ---------------------------------------------------------------------

  /**
   * What `base64_encode` returns: every full group appends base64_chars[0..4]
   * ("ABCD") and a tail of t bytes appends base64_chars[0..t+1] and 3 - t '='.
   */
  function EncodeAsWritten(buf: seq<byte>): string
    decreases |buf|
  {
    if |buf| >= 3 then Base64Chars()[..4] + EncodeAsWritten(buf[3..])
    else if |buf| == 0 then ""
    else Base64Chars()[..|buf| + 1] + Padding(3 - |buf|)
  }

  /** n padding characters. */
  function Padding(n: nat): (r: string)
    ensures |r| == n && forall k | 0 <= k < n :: r[k] == '='
  {
    seq(n, k => '=')
  }

  /** `base64_encode(buf, bufLen)` with bufLen the length of buf. */
  method Base64Encode(buf: seq<byte>) returns (ret: string)
    ensures ret == EncodeAsWritten(buf)
  {
    ret := "";
    var i := 0;
    var charArray3 := new byte[3];
    var charArray4 := new byte[4];
    var bufLen, p := |buf|, 0;
    ghost var groups := 0;
    while bufLen != 0
      invariant 0 <= i < 3 && p == 3 * groups + i <= |buf| && bufLen == |buf| - p
      invariant forall k | 0 <= k < i :: charArray3[k] == buf[3 * groups + k]
      invariant ret == EncodeAsWritten(buf[..3 * groups])
    {
      bufLen := bufLen - 1;
      charArray3[i] := buf[p];
      i := i + 1;
      p := p + 1;
      if i == 3 {
        SplitGroup(charArray3, charArray4);
        ret := AppendAlphabetPrefix(ret, 4);
        EncodeNextGroup(buf, groups);
        i := 0;
        groups := groups + 1;
      }
    }
    if i != 0 {
      ret := EncodeTail(ret, charArray3, charArray4, i);
      EncodeLastGroup(buf, groups);
    } else {
      assert buf[..3 * groups] == buf;
    }
  }

  /**
   * The four assignments to `char_array_4`. The sextets are computed and
   * never read again: the characters appended next do not depend on them.
   */
  method SplitGroup(charArray3: array<byte>, charArray4: array<byte>)
    requires charArray3.Length == 3 && charArray4.Length == 4
    modifies charArray4
    ensures charArray4[..] == Sextets(charArray3[0], charArray3[1], charArray3[2])
  {
    charArray4[0] := charArray3[0] / 4;
    charArray4[1] := (charArray3[0] % 4) * 16 + charArray3[1] / 16;
    charArray4[2] := (charArray3[1] % 16) * 4 + charArray3[2] / 64;
    charArray4[3] := charArray3[2] % 64;
  }

  /** `for (i = 0; i < n; ++i) ret += base64_chars[i];` */
  method AppendAlphabetPrefix(ret: string, n: nat) returns (r: string)
    requires n <= 64
    ensures r == ret + Base64Chars()[..n]
  {
    r := ret;
    var j := 0;
    while j < n
      invariant 0 <= j <= n
      invariant r == ret + Base64Chars()[..j]
    {
      r := r + [Base64Chars()[j]];
      j := j + 1;
    }
  }

  /**
   * The `if (i)` block of `base64_encode`: the tail of i bytes is padded with
   * zeros and split into sextets, but, as written, what is emitted is the
   * first i + 1 alphabet characters, whatever the sextets are.
   */
  method EncodeTail(ret: string, charArray3: array<byte>, charArray4: array<byte>, i: nat) returns (r: string)
    requires charArray3.Length == 3 && charArray4.Length == 4 && 1 <= i < 3
    modifies charArray3, charArray4
    ensures r == ret + Base64Chars()[..i + 1] + Padding(3 - i)
    ensures charArray3[..i] == old(charArray3[..i]) && forall k | i <= k < 3 :: charArray3[k] == 0
    ensures charArray4[..] == Sextets(charArray3[0], charArray3[1], charArray3[2])
  {
    var j := i;
    while j < 3
      invariant i <= j <= 3
      invariant charArray3[..i] == old(charArray3[..i])
      invariant forall k | i <= k < j :: charArray3[k] == 0
    {
      charArray3[j] := 0;
      j := j + 1;
    }
    SplitGroup(charArray3, charArray4);
    r := AppendAlphabetPrefix(ret, i + 1);
    ghost var body := r;
    var k := i;
    while k < 3
      invariant i <= k <= 3
      invariant r == body + Padding(k - i)
    {
      k := k + 1;
      r := r + "=";
    }
  }

  lemma EncodeNextGroup(buf: seq<byte>, groups: nat)
    requires 3 * groups + 3 <= |buf|
    ensures EncodeAsWritten(buf[..3 * groups + 3]) == EncodeAsWritten(buf[..3 * groups]) + Base64Chars()[..4]
  {
    var next := buf[3 * groups..3 * groups + 3];
    assert buf[..3 * groups + 3] == buf[..3 * groups] + next;
    EncodeAsWrittenAppend(buf[..3 * groups], next, groups);
    assert next[3..] == [];
  }

  lemma EncodeLastGroup(buf: seq<byte>, groups: nat)
    requires 3 * groups < |buf| < 3 * groups + 3
    ensures EncodeAsWritten(buf) ==
      EncodeAsWritten(buf[..3 * groups]) + Base64Chars()[..|buf| - 3 * groups + 1] + Padding(3 - (|buf| - 3 * groups))
  {
    assert buf == buf[..3 * groups] + buf[3 * groups..];
    EncodeAsWrittenAppend(buf[..3 * groups], buf[3 * groups..], groups);
  }

  lemma {:induction false} EncodeAsWrittenAppend(a: seq<byte>, b: seq<byte>, groups: nat)
    requires |a| == 3 * groups
    ensures EncodeAsWritten(a + b) == EncodeAsWritten(a) + EncodeAsWritten(b)
    decreases groups
  {
    if groups > 0 {
      assert (a + b)[3..] == a[3..] + b;
      EncodeAsWrittenAppend(a[3..], b, groups - 1);
    } else {
      assert a + b == b;
    }
  }

  /** The encoded length is 4 * ceil(n / 3). */
  lemma {:induction false} EncodeAsWrittenLength(buf: seq<byte>)
    ensures |EncodeAsWritten(buf)| == 4 * ((|buf| + 2) / 3)
    decreases |buf|
  {
    if |buf| >= 3 {
      EncodeAsWrittenLength(buf[3..]);
    }
  }

  /** The output is a function of the input length alone. */
  lemma {:induction false} EncodeDependsOnlyOnLength(a: seq<byte>, b: seq<byte>)
    requires |a| == |b|
    ensures EncodeAsWritten(a) == EncodeAsWritten(b)
    decreases |a|
  {
    if |a| >= 3 {
      EncodeDependsOnlyOnLength(a[3..], b[3..]);
    }
  }

  /** 0, 2 or 1 trailing '=' for n mod 3 = 0, 1, 2; the character before the padding is not '='. */
  lemma {:induction false} EncodeAsWrittenPadding(buf: seq<byte>)
    ensures var r := EncodeAsWritten(buf);
      && (|buf| % 3 == 0 ==> r == [] || r[|r| - 1] != '=')
      && (|buf| % 3 == 1 ==> |r| >= 3 && r[|r| - 2..] == "==" && r[|r| - 3] != '=')
      && (|buf| % 3 == 2 ==> |r| >= 2 && r[|r| - 1] == '=' && r[|r| - 2] != '=')
    decreases |buf|
  {
    if |buf| >= 3 {
      EncodeAsWrittenPadding(buf[3..]);
      var rest := EncodeAsWritten(buf[3..]);
      assert EncodeAsWritten(buf) == Base64Chars()[..4] + rest;
      if rest == [] {
        assert |buf[3..]| == 0;
      }
    }
  }

  /** A single group of three bytes always encodes as "ABCD". */
  lemma EncodeAsWrittenOneGroup(buf: seq<byte>)
    requires |buf| == 3
    ensures EncodeAsWritten(buf) == "ABCD"
  {
    assert buf[3..] == [];
    assert EncodeAsWritten(buf) == Base64Chars()[..4] + "";
    assert AlphabetChar(0) == 'A' && AlphabetChar(1) == 'B';
    assert AlphabetChar(2) == 'C' && AlphabetChar(3) == 'D';
  }

  /**
   * Two different inputs of the same length encode alike, so no decoder can
   * invert `base64_encode`, while their RFC 4648 encodings differ.
   */
  lemma EncodeAsWrittenLosesContent(a: seq<byte>, b: seq<byte>)
    requires |a| == |b| && a != b
    ensures EncodeAsWritten(a) == EncodeAsWritten(b)
    ensures Rfc4648Encode(a) != Rfc4648Encode(b)
    ensures |a| == 3 ==> EncodeAsWritten(a) == "ABCD"
  {
    EncodeDependsOnlyOnLength(a, b);
    DecodeRfc4648Encode(a);
    DecodeRfc4648Encode(b);
    if |a| == 3 {
      EncodeAsWrittenOneGroup(a);
    }
  }
}
