// Key substitution in mail templates: replace_keywords of src/rkey.c.
module Template {
  const MAX_VALUE := 1024
  const MAX_NAME := 254

  datatype KeyPair = KeyPair(key: string, val: string)

  // ---------------------------------------------------------------------
  // What substitution means

  function Lower(c: char): char {
    if 'A' <= c <= 'Z' then c + ' ' else c
  }

  // strcasecmp says 0
  predicate SameName(a: string, b: string) {
    |a| == |b| && forall i :: 0 <= i < |a| ==> Lower(a[i]) == Lower(b[i])
  }

  // The first key with this name, or the number of keys.
  function KeyIndex(keys: seq<KeyPair>, name: string): (i: nat)
    ensures i <= |keys|
    ensures i < |keys| ==> SameName(name, keys[i].key)
    ensures forall k :: 0 <= k < i ==> !SameName(name, keys[k].key)
    decreases |keys|
  {
    if keys == [] || SameName(name, keys[0].key) then 0 else KeyIndex(keys[1..], name) + 1
  }

  // A value is cut at 1024 characters.
  function Cut(val: string): (v: string)
    ensures |v| <= MAX_VALUE
  {
    if |val| <= MAX_VALUE then val else val[..MAX_VALUE]
  }

  // How far a name reaches: to the first ']', the end, or 254 characters.
  function NameLength(s: string, n: nat): (k: nat)
    requires n <= MAX_NAME
    ensures k <= |s| && k <= MAX_NAME - n
    ensures forall i :: 0 <= i < k ==> s[i] != ']'
    ensures k < |s| ==> s[k] == ']' || k == MAX_NAME - n
    decreases |s|
  {
    if n == MAX_NAME || s == [] || s[0] == ']' then 0 else NameLength(s[1..], n + 1) + 1
  }

  // Does s begin with "[key]" for one of the keys?
  predicate BeginsWithKey(s: string, keys: seq<KeyPair>) {
    && s != [] && s[0] == '['
    && var k := NameLength(s[1..], 0);
       k < |s[1..]| && s[1..][k] == ']' && KeyIndex(keys, s[1..][..k]) < |keys|
  }

  // What one step of the pass writes, and what it leaves to be read.
  function Piece(s: string, keys: seq<KeyPair>): string
    requires s != []
  {
    if BeginsWithKey(s, keys) then Cut(keys[KeyIndex(keys, s[1..][..NameLength(s[1..], 0)])].val) else [s[0]]
  }

  function After(s: string, keys: seq<KeyPair>): (rest: string)
    requires s != []
    ensures |rest| < |s|
  {
    if BeginsWithKey(s, keys) then s[1..][NameLength(s[1..], 0) + 1..] else s[1..]
  }

  // The one pass from left to right: what was put in is not read again.
  function Expand(s: string, keys: seq<KeyPair>): string
    decreases |s|
  {
    if s == [] then [] else Piece(s, keys) + Expand(After(s, keys), keys)
  }

  // How many keys are substituted.
  function Uses(s: string, keys: seq<KeyPair>): nat
    decreases |s|
  {
    if s == [] then 0 else (if BeginsWithKey(s, keys) then 1 else 0) + Uses(After(s, keys), keys)
  }

  lemma OneStep(s: string, keys: seq<KeyPair>)
    requires s != []
    ensures if BeginsWithKey(s, keys) then
              Piece(s, keys) == Cut(keys[KeyIndex(keys, s[1..][..NameLength(s[1..], 0)])].val)
              && After(s, keys) == s[1..][NameLength(s[1..], 0) + 1..]
            else Piece(s, keys) == [s[0]] && After(s, keys) == s[1..]
    ensures s[0] != '[' ==> !BeginsWithKey(s, keys)
  {
  }

  // Text without '[' is copied.
  lemma {:induction false} TextIsCopied(text: string, rest: string, keys: seq<KeyPair>)
    requires '[' !in text
    ensures Expand(text + rest, keys) == text + Expand(rest, keys)
    decreases |text|
  {
    hide Piece, After, BeginsWithKey, KeyIndex, NameLength;
    if text == [] {
      assert text + rest == rest;
    } else {
      var s := text + rest;
      assert s[0] == text[0] && s[1..] == text[1..] + rest;
      OneStep(s, keys);
      TextIsCopied(text[1..], rest, keys);
      assert [text[0]] + (text[1..] + Expand(rest, keys)) == text + Expand(rest, keys);
    }
  }

  lemma {:induction false} NameFound(name: string, rest: string, n: nat)
    requires ']' !in name && n + |name| <= MAX_NAME
    ensures NameLength(name + [']'] + rest, n) == |name|
    decreases |name|
  {
    var s := name + [']'] + rest;
    if name != [] {
      assert s[1..] == name[1..] + [']'] + rest;
      NameFound(name[1..], rest, n + 1);
    }
  }

  function Quoted(name: string, rest: string): string {
    ['['] + (name + [']'] + rest)
  }

  lemma QuotedLength(name: string, rest: string)
    ensures |Quoted(name, rest)| == |name| + |rest| + 2
  {
  }

  lemma {:induction false} QuotedParts(name: string, rest: string, keys: seq<KeyPair>)
    requires ']' !in name && |name| <= MAX_NAME
    ensures var s := Quoted(name, rest);
            && s[1..] == name + [']'] + rest && NameLength(s[1..], 0) == |name|
            && s[1..][..|name|] == name && s[1..][|name| + 1..] == rest
            && (BeginsWithKey(s, keys) <==> KeyIndex(keys, name) < |keys|)
  {
    hide NameLength, KeyIndex;
    NameFound(name, rest, 0);
    assert Quoted(name, rest)[1..] == name + [']'] + rest;
  }

  // The same letter, small or capital, of the alphabet; or the same character.
  predicate SameLetter(a: char, b: char) {
    || a == b
    || ('A' <= a <= 'Z' && b as int == a as int + 32)
    || ('A' <= b <= 'Z' && a as int == b as int + 32)
  }

  predicate Alike(a: string, b: string) {
    |a| == |b| && forall i :: 0 <= i < |a| ==> SameLetter(a[i], b[i])
  }

  lemma CaseIsIgnored(a: string, b: string)
    ensures SameName(a, b) <==> Alike(a, b)
  {
    assert |a| == |b| ==> forall i :: 0 <= i < |a| ==> (Lower(a[i]) == Lower(b[i]) <==> SameLetter(a[i], b[i]));
  }

  // Letter for letter, the first key that a name is alike to.
  predicate FirstAlike(keys: seq<KeyPair>, name: string, k: nat) {
    k < |keys| && Alike(name, keys[k].key) && forall j :: 0 <= j < k ==> !Alike(name, keys[j].key)
  }

  lemma KeyFound(keys: seq<KeyPair>, name: string)
    ensures forall k: nat :: FirstAlike(keys, name, k) <==> k < |keys| && KeyIndex(keys, name) == k
    ensures KeyIndex(keys, name) == |keys| <==> forall k :: 0 <= k < |keys| ==> !Alike(name, keys[k].key)
  {
    hide Alike, SameName, KeyIndex;
    forall k | 0 <= k < |keys|
      ensures SameName(name, keys[k].key) <==> Alike(name, keys[k].key)
    {
      CaseIsIgnored(name, keys[k].key);
    }
  }

  // A key of at most 254 characters, whatever the case of its letters, is
  // replaced by its value, cut at 1024 characters, and the pass goes on behind
  // it, whatever the value contains.
  lemma {:induction false} KeyIsReplaced(text: string, name: string, rest: string, keys: seq<KeyPair>, k: nat)
    requires '[' !in text && ']' !in name && |name| <= 254 && FirstAlike(keys, name, k)
    ensures var val := keys[k].val;
            Expand(text + (['['] + (name + [']'] + rest)), keys)
            == text + ((if |val| <= 1024 then val else val[..1024]) + Expand(rest, keys))
  {
    KeyFound(keys, name);
    hide Piece, After, BeginsWithKey, KeyIndex, NameLength, FirstAlike;
    TextIsCopied(text, Quoted(name, rest), keys);
    QuotedParts(name, rest, keys);
    QuotedLength(name, rest);
    OneStep(Quoted(name, rest), keys);
    assert Expand(Quoted(name, rest), keys) == Piece(Quoted(name, rest), keys) + Expand(rest, keys);
  }

  // s is a bracket, a name of at most 254 characters that some key is alike to,
  // a bracket, and more.
  ghost predicate KeyInFront(s: string, keys: seq<KeyPair>) {
    exists name: string, rest: string, k: nat ::
      s == Quoted(name, rest) && ']' !in name && |name| <= 254 && k < |keys| && Alike(name, keys[k].key)
  }

  lemma BeginsExactly(s: string, keys: seq<KeyPair>)
    ensures BeginsWithKey(s, keys) <==> KeyInFront(s, keys)
  {
    if BeginsWithKey(s, keys) {
      var n := NameLength(s[1..], 0);
      var name, rest, k := s[1..][..n], s[1..][n + 1..], KeyIndex(keys, s[1..][..n]);
      CaseIsIgnored(name, keys[k].key);
      assert s[1..] == name + [']'] + rest;
      assert s == Quoted(name, rest);
    }
    if KeyInFront(s, keys) {
      var name: string, rest: string, k: nat :|
        s == Quoted(name, rest) && ']' !in name && |name| <= 254 && k < |keys| && Alike(name, keys[k].key);
      KeyFound(keys, name);
      hide KeyIndex, Alike, BeginsWithKey, Quoted;
      QuotedParts(name, rest, keys);
    }
  }

  // A '[' that begins no key is copied, and the pass goes on with the very
  // next character: a key may begin inside what looked like one.
  lemma BracketIsCopied(text: string, rest: string, keys: seq<KeyPair>)
    requires '[' !in text && !KeyInFront(['['] + rest, keys)
    ensures Expand(text + (['['] + rest), keys) == text + (['['] + Expand(rest, keys))
  {
    BeginsExactly(['['] + rest, keys);
    hide KeyInFront, Piece, After, BeginsWithKey, KeyIndex, NameLength;
    TextIsCopied(text, ['['] + rest, keys);
    OneStep(['['] + rest, keys);
    assert (['['] + rest)[1..] == rest;
  }

  // The result fits the work buffer whenever no more keys are substituted than
  // there are keys.
  lemma {:induction false} ExpandLength(s: string, keys: seq<KeyPair>)
    ensures |Expand(s, keys)| <= |s| + (MAX_VALUE - 2) * Uses(s, keys)
    decreases |s|
  {
    hide BeginsWithKey, Piece, After;
    if s != [] {
      StepLength(s, keys);
      ExpandLength(After(s, keys), keys);
    }
  }

  lemma StepLength(s: string, keys: seq<KeyPair>)
    requires s != []
    ensures var gain := |Piece(s, keys)| + |After(s, keys)| - |s|;
            if BeginsWithKey(s, keys) then gain <= MAX_VALUE - 2 else gain == 0
  {
  }

  lemma FitsWorkBuffer(s: string, keys: seq<KeyPair>)
    requires 1 <= |keys| && Uses(s, keys) <= |keys|
    ensures |Expand(s, keys)| < |s| + 1024 * |keys|
  {
    ExpandLength(s, keys);
  }

  // ---------------------------------------------------------------------
  // The loop over buffers

  predicate NoZero(s: string) {
    '\0' !in s
  }

  // The buffer holds the string s.
  ghost predicate IsText(a: array<char>, s: string)
    reads a
  {
    |s| < a.Length && a[..|s|] == s && a[|s|] == '\0' && NoZero(s)
  }

  lemma CharAt(a: array<char>, s: string, i: nat)
    requires IsText(a, s) && i <= |s|
    ensures if i == |s| then a[i] == '\0' else a[i] == s[i] && a[i] != '\0'
  {
    if i < |s| {
      assert a[..|s|][i] == s[i];
    }
  }

  method StrLen(a: array<char>, ghost s: string) returns (n: nat)
    requires IsText(a, s)
    ensures n == |s|
  {
    n := 0;
    CharAt(a, s, 0);
    while a[n] != '\0'
      invariant n <= |s| && (a[n] == '\0' <==> n == |s|)
      decreases |s| - n
    {
      n := n + 1;
      CharAt(a, s, n);
    }
  }

  // Collect the name behind a '['.
  method ReadName(buffer: array<char>, i: nat, ghost s: string) returns (name: string)
    requires IsText(buffer, s) && i <= |s|
    ensures |name| == NameLength(s[i..], 0) && name == s[i..][..|name|]
  {
    hide IsText;
    HoldsLength(buffer, s);
    ghost var t := s[i..];
    name := [];
    var k := 0;
    CharAt(buffer, s, i);
    while k < MAX_NAME && buffer[i + k] != '\0' && buffer[i + k] != ']'
      invariant k <= |t| && k <= MAX_NAME && name == t[..k]
      invariant k + NameLength(t[k..], k) == NameLength(t, 0)
      invariant if k == |t| then buffer[i + k] == '\0' else buffer[i + k] == t[k] && buffer[i + k] != '\0'
      decreases |t| - k
    {
      assert t[k..][1..] == t[k + 1..];
      name := name + [buffer[i + k]];
      k := k + 1;
      CharAt(buffer, s, i + k);
    }
  }

  method FindKey(keys: seq<KeyPair>, name: string) returns (i: nat)
    ensures i == KeyIndex(keys, name)
  {
    i := 0;
    while i < |keys| && !SameName(name, keys[i].key)
      invariant i <= |keys| && i + KeyIndex(keys[i..], name) == KeyIndex(keys, name)
    {
      assert keys[i..][1..] == keys[i + 1..];
      i := i + 1;
    }
  }

  // The work buffer: text w, and zeros behind it.
  ghost predicate Filled(a: array<char>, w: string)
    reads a
  {
    |w| <= a.Length && (forall k :: 0 <= k < |w| ==> a[k] == w[k]) && forall k :: |w| <= k < a.Length ==> a[k] == '\0'
  }

  // `overrun` says that the string would go past the end of the buffer.
  method PutString(a: array<char>, j: nat, v: string, ghost w: string) returns (overrun: bool, k: nat)
    requires Filled(a, w) && j == |w|
    modifies a
    ensures overrun == (j + |v| > a.Length)
    ensures !overrun ==> k == j + |v| && Filled(a, w + v)
  {
    overrun, k := j + |v| > a.Length, j;
    if overrun {
      return;
    }
    var n := 0;
    while n < |v|
      invariant n <= |v| && Filled(a, w + v[..n])
    {
      a[j + n] := v[n];
      n := n + 1;
    }
    assert v[..n] == v;
    k := j + n;
  }

  // One round of the loop.
  method Replace(buffer: array<char>, i: nat, ghost s: string, keys: seq<KeyPair>,
                 wbuff: array<char>, j: nat, ghost w: string)
    returns (overrun: bool, i': nat, j': nat, copied: bool)
    requires IsText(buffer, s) && i < |s| && buffer != wbuff && Filled(wbuff, w) && j == |w|
    modifies wbuff
    ensures overrun == (j + |Piece(s[i..], keys)| > wbuff.Length)
    ensures i <= i' <= |s| && s[i'..] == After(s[i..], keys) && (copied ==> i' == i + 1)
    ensures !overrun ==> Filled(wbuff, w + Piece(s[i..], keys)) && j' == j + |Piece(s[i..], keys)|
  {
    hide Piece, After, KeyIndex, SameName, NameLength, IsText, Filled;
    CharAt(buffer, s, i);
    OneStep(s[i..], keys);
    assert buffer.Length > |s| by { HoldsLength(buffer, s); }
    copied := true;
    if buffer[i] == '[' {
      var name := ReadName(buffer, i + 1, s);
      assert s[i..][1..] == s[i + 1..];
      CharAt(buffer, s, i + 1 + |name|);
      if buffer[i + 1 + |name|] == ']' {
        var k := FindKey(keys, name);
        if k < |keys| {
          var nn := if MAX_VALUE < |keys[k].val| then MAX_VALUE else |keys[k].val|;
          assert keys[k].val[..nn] == Cut(keys[k].val) == Piece(s[i..], keys);
          overrun, j' := PutString(wbuff, j, keys[k].val[..nn], w);
          i', copied := i + |name| + 2, false;
        }
      }
    }
    if copied {
      assert [buffer[i]] == Piece(s[i..], keys);
      overrun, j' := PutString(wbuff, j, [buffer[i]], w);
      i' := i + 1;
    }
  }

  lemma HoldsLength(a: array<char>, s: string)
    requires IsText(a, s)
    ensures |s| < a.Length
  {
  }

  // replace_keywords; -1 is the answer false.  `overrun` says that the program
  // writes or reads past the end of its work buffer; what it does then is open.
  // That is so exactly when the result does not fit the work buffer.
  method ReplaceKeywords(buffer: array<char>, ghost s: string, maxlen: nat, keys: seq<KeyPair>)
    returns (overrun: bool, ok: bool)
    requires IsText(buffer, s) && maxlen <= buffer.Length
    requires forall k :: 0 <= k < |keys| ==> NoZero(keys[k].val)
    modifies buffer
    ensures overrun == (|Expand(s, keys)| >= |s| + 1024 * |keys|)
    ensures !overrun ==>
              && ok == (|Expand(s, keys)| < maxlen)
              && if ok then IsText(buffer, Expand(s, keys)) else buffer[..] == old(buffer[..])
  {
    overrun, ok := false, false;
    hide Piece, After, BeginsWithKey;
    var len := StrLen(buffer, s);
    var size := len + MAX_VALUE * |keys|;
    var wbuff := new char[size](_ => '\0');
    var i: nat, j: nat, n: nat := 0, 0, 0;
    ghost var w: string := [];
    CharAt(buffer, s, 0);
    assert s[i..] == s;
    while n < size && buffer[i] != '\0'
      invariant n <= i <= |s| && (buffer[i] == '\0' <==> i == |s|)
      invariant Filled(wbuff, w) && j == |w| && w + Expand(s[i..], keys) == Expand(s, keys)
      invariant buffer[..] == old(buffer[..]) && !overrun
      decreases |s| - i
    {
      ghost var piece, rest := Piece(s[i..], keys), After(s[i..], keys);
      assert w + Expand(s[i..], keys) == w + piece + Expand(rest, keys);
      var copied;
      overrun, i, j, copied := Replace(buffer, i, s, keys, wbuff, j, w);
      if overrun {
        return;
      }
      w := w + piece;
      if copied {
        n := n + 1;
      }
      CharAt(buffer, s, i);
    }
    assert s[i..] == [] && w == Expand(s, keys);
    if j == size {
      return true, false;
    }
    ExpandHasNoZero(s, keys);
    assert IsText(wbuff, w);
    var total := StrLen(wbuff, w);
    ok := maxlen > total;
    if ok {
      StrCopy(buffer, wbuff, w);
    }
  }

  method StrCopy(to: array<char>, from: array<char>, ghost w: string)
    requires IsText(from, w) && |w| < to.Length && to != from
    modifies to
    ensures IsText(to, w)
  {
    var k := 0;
    while from[k] != '\0'
      invariant k <= |w| && to[..k] == w[..k]
      decreases |w| - k
    {
      CharAt(from, w, k);
      to[k] := from[k];
      k := k + 1;
    }
    CharAt(from, w, k);
    to[k] := '\0';
  }

  lemma {:induction false} ExpandHasNoZero(s: string, keys: seq<KeyPair>)
    requires NoZero(s) && forall k :: 0 <= k < |keys| ==> NoZero(keys[k].val)
    ensures NoZero(Expand(s, keys))
    decreases |s|
  {
    hide NameLength, KeyIndex;
    if s != [] {
      ExpandHasNoZero(After(s, keys), keys);
    }
  }
}
