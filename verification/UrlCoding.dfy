// Percent coding of strings (src/utils.c): sections 2.1 and 2.3 of RFC 3986,
// with '+' for a space as in section 17.13.4.1 of HTML 4.01.  Strings are
// arrays of bytes ended by a zero.
module UrlCoding {

  type byte = bv8

  // ---------------------------------------------------------------------
  // Characters

  predicate IsDigit(c: byte) {
    48 <= c <= 57
  }

  predicate IsAlnum(c: byte) {
    IsDigit(c) || 65 <= c <= 90 || 97 <= c <= 122
  }

  // The unreserved characters: these stand for themselves.
  predicate Unreserved(c: byte) {
    IsAlnum(c) || c == 45 || c == 95 || c == 46 || c == 126
  }

  function ToLower(c: byte): byte {
    if 65 <= c <= 90 then c + 32 else c
  }

  // from_hex, on any character; the arithmetic is that of a byte.
  function FromHex(c: byte): byte {
    if IsDigit(c) then c - 48 else ToLower(c) - 97 + 10
  }

  // to_hex: the digit of the low half.
  function ToHex(c: byte): (h: byte)
    ensures h != 0
  {
    var d := c & 0x0f;
    if d < 10 then 48 + d else 55 + d
  }

  lemma HexRoundTrip(c: byte)
    ensures (FromHex(ToHex(c >> 4)) << 4) | FromHex(ToHex(c)) == c
  {
  }

  // ---------------------------------------------------------------------
  // What encoding and decoding mean

  function EncodeChar(c: byte): (e: seq<byte>)
    ensures 1 <= |e| <= 3 && 0 !in e
  {
    if c == 32 then [43]
    else if Unreserved(c) then assert c != 0; [c]
    else [37, ToHex(c >> 4), ToHex(c)]
  }

  function Encode(s: seq<byte>): (e: seq<byte>)
    ensures |s| <= |e| <= 3 * |s| && 0 !in e
  {
    if s == [] then [] else EncodeChar(s[0]) + Encode(s[1..])
  }

  // A step of decoding: the characters it reads, and what it writes.
  function StepLength(s: seq<byte>): (k: nat)
    requires s != []
    ensures 1 <= k <= |s|
  {
    if s[0] == 37 && |s| >= 3 then 3 else 1
  }

  function StepResult(s: seq<byte>): (d: seq<byte>)
    requires s != []
    ensures |d| <= 1
  {
    if s[0] == 37 then (if |s| >= 3 then [(FromHex(s[1]) << 4) | FromHex(s[2])] else [])
    else if s[0] == 43 then [32]
    else [s[0]]
  }

  // At most m steps of decoding: what they write, and what they leave unread.
  function DecodeSome(s: seq<byte>, m: nat): (r: (seq<byte>, seq<byte>))
    ensures |r.0| <= m && |r.0| + |r.1| <= |s|
    decreases m
  {
    if m == 0 || s == [] then ([], s)
    else
      var (d, rest) := DecodeSome(s[StepLength(s)..], m - 1);
      (StepResult(s) + d, rest)
  }

  function Decode(s: seq<byte>): (d: seq<byte>) {
    DecodeSome(s, |s|).0
  }

  // One step of decoding takes back the encoding of one character.
  lemma StepInverts(c: byte, rest: seq<byte>)
    ensures var s := EncodeChar(c) + rest; StepResult(s) == [c] && s[StepLength(s)..] == rest
  {
    HexRoundTrip(c);
    var s := EncodeChar(c) + rest;
    assert s[|EncodeChar(c)|..] == rest;
  }

  // Decoding m steps of an encoded string gives its first m characters; the
  // rest is left exactly when the string is longer.
  lemma {:induction false} DecodeInverts(s: seq<byte>, m: nat)
    ensures DecodeSome(Encode(s), m) == if m < |s| then (s[..m], Encode(s[m..])) else (s, [])
    decreases |s|
  {
    hide EncodeChar, StepResult, StepLength;
    if s != [] && m > 0 {
      var e := Encode(s[1..]);
      StepInverts(s[0], e);
      DecodeInverts(s[1..], m - 1);
      assert Encode(s) == EncodeChar(s[0]) + e;
      hide Encode;
      assert DecodeSome(Encode(s), m) == ([s[0]] + DecodeSome(e, m - 1).0, DecodeSome(e, m - 1).1);
      hide DecodeSome;
      if m < |s| {
        assert s[1..][m - 1..] == s[m..] && [s[0]] + s[1..][..m - 1] == s[..m];
      } else {
        assert [s[0]] + s[1..] == s;
      }
    }
  }

  // url_decode(url_encode(s)) is s.
  lemma RoundTrip(s: seq<byte>)
    ensures Decode(Encode(s)) == s
  {
    DecodeInverts(s, |Encode(s)|);
  }

  // Every character of an encoded string is unreserved, '+' or '%'.
  lemma {:induction false} EncodedIsPlain(s: seq<byte>, i: nat)
    requires i < |Encode(s)|
    ensures var c := Encode(s)[i]; Plain(c) || c == 43 || c == 37
    decreases |s|
  {
    if i >= |EncodeChar(s[0])| {
      EncodedIsPlain(s[1..], i - |EncodeChar(s[0])|);
    }
  }

  // ---------------------------------------------------------------------
  // Character by character

  // Letters, digits and "-", "_", ".", "~", by their codes.
  predicate Plain(c: byte) {
    48 <= c <= 57 || 65 <= c <= 90 || 97 <= c <= 122 || c == 45 || c == 95 || c == 46 || c == 126
  }

  // The value of a hexadecimal digit, of which the letters may be small.
  predicate HexDigit(c: byte, d: byte) {
    (d < 10 && c == 48 + d) || (10 <= d < 16 && (c == 55 + d || c == 87 + d))
  }

  // A string of plain characters is encoded as itself.
  lemma {:induction false} PlainIsItself(s: seq<byte>)
    requires forall i :: 0 <= i < |s| ==> Plain(s[i])
    ensures Encode(s) == s
    decreases |s|
  {
    if s != [] {
      PlainIsItself(s[1..]);
      assert s == [s[0]] + s[1..];
    }
  }

  // A space becomes '+', and any other character '%' and its two digits, high
  // one first, with capital letters.
  lemma OthersAreCoded(c: byte, hi: byte, lo: byte)
    requires !Plain(c) && hi < 16 && lo < 16 && c == (hi << 4) | lo
    ensures Encode([c]) == if c == 32 then [43]
                           else [37, if hi < 10 then 48 + hi else 55 + hi, if lo < 10 then 48 + lo else 55 + lo]
  {
    HalvesOf(c, hi, lo);
    assert [c][1..] == [] && Encode([c]) == EncodeChar(c) + Encode([]);
  }

  lemma HalvesOf(c: byte, hi: byte, lo: byte)
    requires hi < 16 && lo < 16 && c == (hi << 4) | lo
    ensures (c >> 4) & 0x0f == hi && c & 0x0f == lo
  {
  }

  lemma DigitValue(c: byte, d: byte)
    requires HexDigit(c, d)
    ensures FromHex(c) == d
  {
  }

  // '%' and two digits are decoded as the character of that value,
  lemma CodedIsDecoded(a: byte, b: byte, hi: byte, lo: byte, rest: seq<byte>, m: nat)
    requires HexDigit(a, hi) && HexDigit(b, lo)
    ensures var (d, left) := DecodeSome(rest, m);
            DecodeSome([37, a, b] + rest, m + 1) == ([(hi << 4) | lo] + d, left)
  {
    hide FromHex;
    DigitValue(a, hi);
    DigitValue(b, lo);
    assert ([37, a, b] + rest)[3..] == rest;
  }

  // and any other two characters by the same arithmetic, digits or not;
  lemma AnyTwoAreDecoded(a: byte, b: byte, rest: seq<byte>, m: nat)
    ensures var hi := if 48 <= a <= 57 then a - 48 else if 65 <= a <= 90 then a - 55 else a - 87;
            var lo := if 48 <= b <= 57 then b - 48 else if 65 <= b <= 90 then b - 55 else b - 87;
            var (d, left) := DecodeSome(rest, m);
            DecodeSome([37, a, b] + rest, m + 1) == ([(hi << 4) | lo] + d, left)
  {
    assert ([37, a, b] + rest)[3..] == rest;
  }

  // '+' as a space, and all else but '%' as itself;
  lemma OthersAreCopied(c: byte, rest: seq<byte>, m: nat)
    requires c != 37
    ensures var (d, left) := DecodeSome(rest, m);
            DecodeSome([c] + rest, m + 1) == ([if c == 43 then 32 else c] + d, left)
  {
    assert ([c] + rest)[1..] == rest;
  }

  // and a '%' with fewer than two characters behind it is passed over.
  lemma PercentIsPassed(rest: seq<byte>, m: nat)
    requires |rest| < 2
    ensures DecodeSome([37] + rest, m + 1) == DecodeSome(rest, m)
  {
    assert ([37] + rest)[1..] == rest;
    assert [] + DecodeSome(rest, m).0 == DecodeSome(rest, m).0;
  }

  // With as many steps as characters, or more, all is decoded.
  lemma {:induction false} StepsEnough(s: seq<byte>, m: nat)
    requires |s| <= m
    ensures DecodeSome(s, m) == (Decode(s), [])
    decreases |s|
  {
    hide StepResult, StepLength;
    if s != [] {
      var rest := s[StepLength(s)..];
      StepsEnough(rest, m - 1);
      StepsEnough(rest, |s| - 1);
    }
  }

  // ---------------------------------------------------------------------
  // The loops over buffers

  // The buffer begins with the bytes s and a zero.
  ghost predicate Stores(a: array<byte>, s: seq<byte>)
    reads a
  {
    |s| < a.Length && a[..|s|] == s && a[|s|] == 0
  }

  // It holds the string s: as Stores, with no zero before the end.
  ghost predicate IsString(a: array<byte>, s: seq<byte>)
    reads a
  {
    Stores(a, s) && 0 !in s
  }

  lemma EncodeOne(s: seq<byte>, i: nat)
    requires i < |s|
    ensures Encode(s[i..]) == EncodeChar(s[i]) + Encode(s[i + 1..])
  {
    hide EncodeChar;
    assert s[i..][1..] == s[i + 1..];
  }

  lemma EncodeNone(s: seq<byte>)
    ensures s[0..] == s && Encode(s[|s|..]) == []
  {
  }

  // What the loop has written so far.
  ghost predicate Written(a: array<byte>, w: seq<byte>)
    reads a
  {
    |w| <= a.Length && forall k :: 0 <= k < |w| ==> a[k] == w[k]
  }

  // A zero behind it ends the string.
  lemma Ended(a: array<byte>, w: seq<byte>)
    requires Written(a, w) && |w| < a.Length && a[|w|] == 0
    ensures Stores(a, w) && (0 !in w ==> IsString(a, w))
  {
  }

  method PutZero(a: array<byte>, j: nat, ghost w: seq<byte>)
    requires Written(a, w) && j == |w| < a.Length
    modifies a
    ensures Stores(a, w) && (0 !in w ==> IsString(a, w))
  {
    a[j] := 0;
    Ended(a, w);
  }

  lemma NothingYet(a: array<byte>)
    ensures Written(a, [])
  {
  }

  lemma Regroup(w: seq<byte>, d: seq<byte>, rest: seq<byte>)
    ensures w + (d + rest) == (w + d) + rest
  {
  }

  // url_encode; n is strlen(str)
  method UrlEncode(str: array<byte>, n: nat, ghost s: seq<byte>) returns (buf: array<byte>)
    requires IsString(str, s) && n == |s|
    ensures fresh(buf) && buf.Length == 3 * n + 1 && IsString(buf, Encode(s))
  {
    StringFits(str, s);
    hide EncodeChar, Encode, IsString, Stores, Written;
    buf := new byte[n * 3 + 1](_ => 0);
    var i: nat, j: nat := 0, 0;
    ghost var w: seq<byte> := [];
    EncodeNone(s);
    StringAt(str, s, 0);
    assert Written(buf, w) by { NothingYet(buf); }
    while str[i] != 0
      invariant i <= n && j == |w| <= 3 * i && Written(buf, w)
      invariant str[i] == 0 <==> i == n
      invariant w + Encode(s[i..]) == Encode(s)
      decreases n - i
    {
      StringAt(str, s, i);
      EncodeOne(s, i);
      j := PutEncoded(str[i], buf, j, w);
      Regroup(w, EncodeChar(s[i]), Encode(s[i + 1..]));
      w := w + EncodeChar(s[i]);
      i := i + 1;
      StringAt(str, s, i);
    }
    assert w + [] == w;
    PutZero(buf, j, w);
  }

  lemma StringFits(a: array<byte>, s: seq<byte>)
    requires IsString(a, s)
    ensures |s| < a.Length
  {
  }

  lemma StringAt(a: array<byte>, s: seq<byte>, i: nat)
    requires IsString(a, s) && i <= |s|
    ensures if i == |s| then a[i] == 0 else a[i] == s[i] && a[i] != 0
  {
    if i < |s| {
      assert a[..|s|][i] == s[i];
    }
  }

  method PutEncoded(c: byte, buf: array<byte>, j: nat, ghost w: seq<byte>) returns (k: nat)
    requires j + 3 < buf.Length && Written(buf, w) && j == |w|
    modifies buf
    ensures k == j + |EncodeChar(c)| && Written(buf, w + EncodeChar(c))
  {
    k := j;
    if IsAlnum(c) || c == 45 || c == 95 || c == 46 || c == 126 {
      buf[k] := c;
      k := k + 1;
    } else if c == 32 {
      buf[k] := 43;
      k := k + 1;
    } else {
      buf[k] := 37;
      buf[k + 1] := ToHex(c >> 4);
      buf[k + 2] := ToHex(c);
      k := k + 3;
    }
  }

  // One round of the decoding loops.
  method PutDecoded(str: array<byte>, i: nat, ghost s: seq<byte>, buf: array<byte>, j: nat, ghost w: seq<byte>)
    returns (i': nat, j': nat)
    requires IsString(str, s) && i < |s| && j + 1 < buf.Length && buf != str && Written(buf, w) && j == |w|
    modifies buf
    ensures i' == i + StepLength(s[i..]) <= |s| && j' == j + |StepResult(s[i..])|
    ensures Written(buf, w + StepResult(s[i..]))
  {
    i', j' := i, j;
    StringAt(str, s, i);
    StringAt(str, s, i + 1);
    if str[i] == 37 {
      if str[i + 1] != 0 {
        StringAt(str, s, i + 2);
        if str[i + 2] != 0 {
          buf[j] := (FromHex(str[i + 1]) << 4) | FromHex(str[i + 2]);
          i', j' := i' + 2, j' + 1;
        }
      }
    } else if str[i] == 43 {
      buf[j] := 32;
      j' := j' + 1;
    } else {
      buf[j] := str[i];
      j' := j' + 1;
    }
    i' := i' + 1;
  }

  lemma DecodeOne(s: seq<byte>, i: nat, m: nat)
    requires i < |s| && 0 < m
    ensures var next := DecodeSome(s[i + StepLength(s[i..])..], m - 1);
            DecodeSome(s[i..], m) == (StepResult(s[i..]) + next.0, next.1)
  {
    hide StepLength, StepResult;
    assert s[i..][StepLength(s[i..])..] == s[i + StepLength(s[i..])..];
  }

  lemma DecodeNone(s: seq<byte>, m: nat)
    ensures s[0..] == s && DecodeSome(s[|s|..], m) == ([], []) && DecodeSome(s, 0) == ([], s)
  {
  }

  lemma DecodeIs(s: seq<byte>)
    ensures Decode(s) == DecodeSome(s, |s|).0
  {
  }

  // url_decode
  method UrlDecode(str: array?<byte>, n: nat, ghost s: seq<byte>) returns (buf: array?<byte>)
    requires str != null ==> IsString(str, s) && n == |s|
    ensures buf == null <==> str == null
    ensures buf != null ==> fresh(buf) && buf.Length == n + 1 && Stores(buf, Decode(s))
  {
    if str == null {
      return null;
    }
    hide DecodeSome, IsString, Stores;
    var out := new byte[n + 1](_ => 0);
    DecodeInto(out, str, n, s);
    DecodeIs(s);
    buf := out;
  }

  // With w written, decoding from the i-th byte on leads to the goal.
  ghost predicate DecodesTo(w: seq<byte>, s: seq<byte>, i: nat, m: nat, goal: seq<byte>) {
    i <= |s| && w + DecodeSome(s[i..], m).0 == goal
  }

  lemma AtFirst(s: seq<byte>, m: nat)
    ensures DecodesTo([], s, 0, m, DecodeSome(s, m).0)
  {
    hide DecodeSome;
    assert s[0..] == s;
  }

  lemma OneStepOn(w: seq<byte>, s: seq<byte>, i: nat, m: nat, goal: seq<byte>)
    requires DecodesTo(w, s, i, m, goal) && i < |s| && 0 < m
    ensures DecodesTo(w + StepResult(s[i..]), s, i + StepLength(s[i..]), m - 1, goal)
  {
    hide DecodeSome, StepLength, StepResult;
    DecodeOne(s, i, m);
    Regroup(w, StepResult(s[i..]), DecodeSome(s[i + StepLength(s[i..])..], m - 1).0);
  }

  lemma AllRead(w: seq<byte>, s: seq<byte>, m: nat, goal: seq<byte>)
    requires DecodesTo(w, s, |s|, m, goal)
    ensures w == goal
  {
    DecodeNone(s, m);
    assert w + [] == w;
  }

  method DecodeInto(out: array<byte>, str: array<byte>, n: nat, ghost s: seq<byte>)
    requires out != str && out.Length == n + 1 && IsString(str, s) && n == |s|
    modifies out
    ensures Stores(out, DecodeSome(s, n).0)
  {
    StringFits(str, s);
    hide StepLength, StepResult, DecodeSome, IsString, Stores, Written, DecodesTo;
    ghost var goal := DecodeSome(s, n).0;
    var i: nat, j: nat := 0, 0;
    ghost var m: nat, w: seq<byte> := n, [];
    StringAt(str, s, 0);
    assert Written(out, w) by { NothingYet(out); }
    assert DecodesTo(w, s, 0, m, goal) by { AtFirst(s, m); }
    while str[i] != 0
      invariant j == |w| <= i <= n && n - i <= m && Written(out, w) && IsString(str, s)
      invariant str[i] == 0 <==> i == n
      invariant DecodesTo(w, s, i, m, goal)
      decreases n - i
    {
      OneStepOn(w, s, i, m, goal);
      ghost var d := StepResult(s[i..]);
      i, j := PutDecoded(str, i, s, out, j, w);
      m, w := m - 1, w + d;
      StringAt(str, s, i);
    }
    AllRead(w, s, m, goal);
    PutZero(out, j, w);
  }

  // url_decode_buff: -1 is the answer false
  method UrlDecodeBuff(decode: array<byte>, maxlen: nat, str: array?<byte>, ghost s: seq<byte>) returns (ok: bool)
    requires 1 <= decode.Length && maxlen <= decode.Length && decode != str
    requires str != null ==> IsString(str, s)
    modifies decode
    ensures str == null ==> !ok && decode[..] == old(decode[..])
    ensures str != null ==>
              var (d, rest) := DecodeSome(s, if maxlen == 0 then 0 else maxlen - 1);
              Stores(decode, d) && (ok <==> maxlen == 0 || rest == [])
  {
    if str == null {
      return false;
    }
    StringFits(str, s);
    hide StepLength, StepResult, DecodeSome, Decode, IsString, Stores, Written;
    var room: nat, i: nat, j: nat := maxlen, 0, 0;
    ghost var goal := DecodeSome(s, if maxlen == 0 then 0 else maxlen - 1);
    ghost var m: nat, w: seq<byte> := if maxlen == 0 then 0 else maxlen - 1, [];
    DecodeNone(s, m);
    StringAt(str, s, 0);
    assert Written(decode, w) by { NothingYet(decode); }
    while room > 1 && str[i] != 0
      invariant i <= |s| && j == |w| && j + room <= maxlen && Written(decode, w)
      invariant (if maxlen == 0 then room == 0 && m == 0 else room == m + 1) && IsString(str, s)
      invariant str[i] == 0 <==> i == |s|
      invariant w + DecodeSome(s[i..], m).0 == goal.0 && DecodeSome(s[i..], m).1 == goal.1
      decreases |s| - i
    {
      DecodeOne(s, i, m);
      ghost var d := StepResult(s[i..]);
      i, j := PutDecoded(str, i, s, decode, j, w);
      Regroup(w, d, DecodeSome(s[i..], m - 1).0);
      room, m, w := room - 1, m - 1, w + d;
      StringAt(str, s, i);
    }
    DecodeNone(s, m);
    DecodeNone(s[i..], m);
    assert w + [] == w;
    ok := !(1 == room && str[i] != 0);
    PutZero(decode, j, w);
  }

  // On encoded input the buffer gets the first maxlen - 1 characters, and the
  // answer is -1 exactly when that is not all of them.
  lemma BufferGetsPrefix(s: seq<byte>, maxlen: nat)
    requires 1 <= maxlen
    ensures var (d, rest) := DecodeSome(Encode(s), maxlen - 1);
            && d == (if maxlen - 1 < |s| then s[..maxlen - 1] else s)
            && (rest == [] <==> |s| <= maxlen - 1)
  {
    hide EncodeChar;
    DecodeInverts(s, maxlen - 1);
  }
}
