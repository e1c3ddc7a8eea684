/** The RFC 4514 text form of names (name.go:307-470). */
module NameText {
  import opened Prelude
  import opened Names
  import opened DirectoryStrings

  const BACKSLASH: Byte := 0x5C
  const COMMA: Byte := 0x2C
  const PLUS: Byte := 0x2B
  const EQUALS: Byte := 0x3D
  const HASH: Byte := 0x23
  const SPACE: Byte := 0x20

  // ---------------------------------------------------------------- splitting

  /** A left-to-right scanner: is it in the escaped state before s[i]? */
  predicate EscapedAt(s: Bytes, i: nat)
    requires i <= |s|
  {
    i > 0 && s[i - 1] == BACKSLASH && !EscapedAt(s, i - 1)
  }

  /** The run of backslashes that ends just before s[i]. */
  function BackslashesBefore(s: Bytes, i: nat): (n: nat)
    requires i <= |s|
    ensures n <= i
  {
    if i > 0 && s[i - 1] == BACKSLASH then 1 + BackslashesBefore(s, i - 1) else 0
  }

  /** Counting backwards finds the state of the forward scanner. */
  lemma {:induction false} BackwardCountIsForwardState(s: Bytes, i: nat)
    requires i <= |s|
    ensures BackslashesBefore(s, i) % 2 == 1 <==> EscapedAt(s, i)
  {
    if i > 0 && s[i - 1] == BACKSLASH {
      BackwardCountIsForwardState(s, i - 1);
    }
  }

  predicate SplitsAt(s: Bytes, sep: Byte, i: nat)
    requires i < |s|
  {
    s[i] == sep && !EscapedAt(s, i)
  }

  /** Where the part after the last split point before n begins. */
  function StartBefore(s: Bytes, sep: Byte, n: nat): (r: nat)
    requires n <= |s|
    ensures r <= n
  {
    if n == 0 then 0
    else if SplitsAt(s, sep, n - 1) then n
    else StartBefore(s, sep, n - 1)
  }

  function PartsBefore(s: Bytes, sep: Byte, n: nat): seq<Bytes>
    requires n <= |s|
  {
    if n == 0 then []
    else if SplitsAt(s, sep, n - 1) then PartsBefore(s, sep, n - 1) + [s[StartBefore(s, sep, n - 1)..n - 1]]
    else PartsBefore(s, sep, n - 1)
  }

  function Split(s: Bytes, sep: Byte): (parts: seq<Bytes>)
    ensures |parts| > 0
  {
    PartsBefore(s, sep, |s|) + [s[StartBefore(s, sep, |s|)..]]
  }

  method SplitUnescaped(s: Bytes, sep: Byte) returns (parts: seq<Bytes>)
    ensures parts == Split(s, sep)
  {
    parts := [];
    var start := 0;
    for i := 0 to |s|
      invariant start == StartBefore(s, sep, i)
      invariant parts == PartsBefore(s, sep, i)
    {
      if s[i] != sep {
        continue;
      }
      var n := 0;
      var j := i - 1;
      while j >= 0 && s[j] == BACKSLASH
        invariant -1 <= j < i
        invariant n + BackslashesBefore(s, j + 1) == BackslashesBefore(s, i)
      {
        n := n + 1;
        j := j - 1;
      }
      BackwardCountIsForwardState(s, i);
      if n % 2 == 0 {
        parts := parts + [s[start..i]];
        start := i + 1;
      }
    }
    return parts + [s[start..]];
  }

  function Join(parts: seq<Bytes>, sep: Byte): Bytes {
    if parts == [] then []
    else if |parts| == 1 then parts[0]
    else parts[0] + [sep] + Join(parts[1..], sep)
  }

  lemma {:induction false} JoinSnoc(parts: seq<Bytes>, sep: Byte, last: Bytes)
    requires |parts| > 0
    ensures Join(parts + [last], sep) == Join(parts, sep) + [sep] + last
  {
    if |parts| > 1 {
      assert (parts + [last])[1..] == parts[1..] + [last];
      JoinSnoc(parts[1..], sep, last);
    } else {
      assert (parts + [last])[1..] == [last];
    }
  }

  lemma JoinOne(part: Bytes, sep: Byte)
    ensures Join([] + [part], sep) == part
  {
    assert [] + [part] == [part];
  }

  lemma {:induction false} PartsRejoin(s: Bytes, sep: Byte, n: nat, tail: Bytes)
    requires n <= |s|
    ensures Join(PartsBefore(s, sep, n) + [s[StartBefore(s, sep, n)..n] + tail], sep) == s[..n] + tail
  {
    hide Join, EscapedAt;
    var parts, start := PartsBefore(s, sep, n), StartBefore(s, sep, n);
    if n == 0 {
      assert s[0..0] + tail == tail == s[..0] + tail;
      JoinOne(tail, sep);
    } else if SplitsAt(s, sep, n - 1) {
      var before, from := PartsBefore(s, sep, n - 1), StartBefore(s, sep, n - 1);
      PartsRejoin(s, sep, n - 1, []);
      assert s[from..n - 1] + [] == s[from..n - 1];
      assert s[n..n] + tail == tail;
      JoinSnoc(parts, sep, tail);
      assert s[..n - 1] + [] == s[..n - 1];
      assert s[..n - 1] + [sep] + tail == s[..n] + tail;
    } else {
      PartsRejoin(s, sep, n - 1, [s[n - 1]] + tail);
      assert s[start..n - 1] + ([s[n - 1]] + tail) == s[start..n] + tail;
      assert s[..n - 1] + ([s[n - 1]] + tail) == s[..n] + tail;
    }
  }

  /** The parts rejoined with the separator give back the input. */
  lemma SplitRejoins(s: Bytes, sep: Byte)
    ensures Join(Split(s, sep), sep) == s
  {
    PartsRejoin(s, sep, |s|, []);
    var last := s[StartBefore(s, sep, |s|)..|s|];
    assert last + [] == last == s[StartBefore(s, sep, |s|)..];
    assert s[..|s|] + [] == s;
  }

  /** No unescaped separator inside. */
  predicate Whole(part: Bytes, sep: Byte) {
    forall i :: 0 <= i < |part| ==> !SplitsAt(part, sep, i)
  }

  /** The scanner leaves the part in the unescaped state. */
  predicate Closed(part: Bytes) {
    !EscapedAt(part, |part|)
  }

  lemma {:induction false} EscapedInPrefix(a: Bytes, b: Bytes, i: nat)
    requires i <= |a|
    ensures EscapedAt(a + b, i) == EscapedAt(a, i)
  {
    if i > 0 {
      EscapedInPrefix(a, b, i - 1);
    }
  }

  lemma {:induction false} EscapedInSuffix(a: Bytes, b: Bytes, i: nat)
    requires i <= |b| && Closed(a)
    ensures EscapedAt(a + b, |a| + i) == EscapedAt(b, i)
  {
    if i == 0 {
      EscapedInPrefix(a, b, |a|);
    } else {
      EscapedInSuffix(a, b, i - 1);
      assert (a + b)[|a| + i - 1] == b[i - 1];
    }
  }

  lemma {:induction false} StartIsFresh(s: Bytes, sep: Byte, n: nat)
    requires n <= |s| && sep != BACKSLASH
    ensures !EscapedAt(s, StartBefore(s, sep, n))
    ensures forall i :: StartBefore(s, sep, n) <= i < n ==> !SplitsAt(s, sep, i)
  {
    if n > 0 {
      StartIsFresh(s, sep, n - 1);
    }
  }

  lemma PartIsWhole(s: Bytes, sep: Byte, from: nat, to: nat)
    requires from <= to <= |s| && !EscapedAt(s, from)
    requires forall i :: from <= i < to ==> !SplitsAt(s, sep, i)
    ensures Whole(s[from..to], sep)
  {
    var part := s[from..to];
    forall i | 0 <= i < |part| ensures !SplitsAt(part, sep, i) {
      var a, b := s[..from], s[from..];
      assert a + b == s && part + s[to..] == b;
      EscapedInPrefix(a, b, from);
      EscapedInSuffix(a, b, i);
      EscapedInPrefix(part, s[to..], i);
      assert !SplitsAt(s, sep, from + i);
    }
  }

  lemma {:induction false} PartsAreWhole(s: Bytes, sep: Byte, n: nat, k: nat)
    requires n <= |s| && sep != BACKSLASH && k < |PartsBefore(s, sep, n)|
    ensures Whole(PartsBefore(s, sep, n)[k], sep) && Closed(PartsBefore(s, sep, n)[k])
  {
    hide EscapedAt, Whole;
    if k < |PartsBefore(s, sep, n - 1)| {
      PartsAreWhole(s, sep, n - 1, k);
    } else {
      var from := StartBefore(s, sep, n - 1);
      StartIsFresh(s, sep, n - 1);
      PartIsWhole(s, sep, from, n - 1);
      var part := s[from..n - 1];
      var a, b := s[..from], s[from..];
      assert a + b == s && part + s[n - 1..] == b;
      EscapedInPrefix(a, b, from);
      EscapedInSuffix(a, b, n - 1 - from);
      EscapedInPrefix(part, s[n - 1..], |part|);
    }
  }

  /** No part contains an unescaped separator, and none but the last ends inside an escape. */
  lemma SplitParts(s: Bytes, sep: Byte)
    requires sep != BACKSLASH
    ensures forall k :: 0 <= k < |Split(s, sep)| ==> Whole(Split(s, sep)[k], sep)
    ensures forall k :: 0 <= k < |Split(s, sep)| - 1 ==> Closed(Split(s, sep)[k])
  {
    var before := PartsBefore(s, sep, |s|);
    forall k | 0 <= k < |before|
      ensures Whole(before[k], sep) && Closed(before[k])
    {
      PartsAreWhole(s, sep, |s|, k);
    }
    StartIsFresh(s, sep, |s|);
    PartIsWhole(s, sep, StartBefore(s, sep, |s|), |s|);
    assert s[StartBefore(s, sep, |s|)..|s|] == s[StartBefore(s, sep, |s|)..];
  }

  lemma {:induction false} WholeIsOnePart(s: Bytes, sep: Byte, n: nat)
    requires n <= |s| && Whole(s, sep)
    ensures StartBefore(s, sep, n) == 0 && PartsBefore(s, sep, n) == []
  {
    if n > 0 {
      assert !SplitsAt(s, sep, n - 1);
      WholeIsOnePart(s, sep, n - 1);
    }
  }

  lemma {:induction false} FirstPartSplitsOff(p: Bytes, sep: Byte, rest: Bytes, k: nat)
    requires Whole(p, sep) && Closed(p) && sep != BACKSLASH && k <= |rest|
    ensures var s := p + [sep] + rest;
            && StartBefore(s, sep, |p| + 1 + k) == |p| + 1 + StartBefore(rest, sep, k)
            && PartsBefore(s, sep, |p| + 1 + k) == [p] + PartsBefore(rest, sep, k)
  {
    var s := p + [sep] + rest;
    var head := p + [sep];
    EscapedInSuffix(p, [sep], 0);
    EscapedInSuffix(p, [sep], 1);
    assert Closed(head);
    if k == 0 {
      EscapedInPrefix(head, rest, |p|);
      WholePrefix(p, [sep] + rest, sep, |p|);
      assert p + ([sep] + rest) == s;
      assert SplitsAt(s, sep, |p|);
      assert s[0..|p|] == p;
    } else {
      FirstPartSplitsOff(p, sep, rest, k - 1);
      EscapedInSuffix(head, rest, k - 1);
      assert s[|p| + k] == rest[k - 1];
      assert SplitsAt(s, sep, |p| + k) == SplitsAt(rest, sep, k - 1);
      if SplitsAt(rest, sep, k - 1) {
        var from := StartBefore(rest, sep, k - 1);
        assert s[|p| + 1 + from..|p| + k] == rest[from..k - 1];
      }
    }
  }

  lemma {:induction false} WholePrefix(p: Bytes, rest: Bytes, sep: Byte, n: nat)
    requires Whole(p, sep) && n <= |p|
    ensures StartBefore(p + rest, sep, n) == 0 && PartsBefore(p + rest, sep, n) == []
  {
    if n > 0 {
      assert !SplitsAt(p, sep, n - 1);
      EscapedInPrefix(p, rest, n - 1);
      WholePrefix(p, rest, sep, n - 1);
    }
  }

  lemma FirstPart(p: Bytes, sep: Byte, rest: Bytes)
    requires Whole(p, sep) && Closed(p) && sep != BACKSLASH
    ensures Split(p + [sep] + rest, sep) == [p] + Split(rest, sep)
  {
    var s, from := p + [sep] + rest, StartBefore(rest, sep, |rest|);
    FirstPartSplitsOff(p, sep, rest, |rest|);
    assert |s| == |p| + 1 + |rest|;
    assert s[|p| + 1 + from..] == rest[from..];
  }

  /** Splitting undoes joining: the parts are the only whole, closed pieces that rejoin to s. */
  lemma {:induction false} SplitUndoesJoin(parts: seq<Bytes>, sep: Byte)
    requires |parts| > 0 && sep != BACKSLASH
    requires forall k :: 0 <= k < |parts| ==> Whole(parts[k], sep)
    requires forall k :: 0 <= k < |parts| - 1 ==> Closed(parts[k])
    ensures Split(Join(parts, sep), sep) == parts
  {
    if |parts| == 1 {
      WholeIsOnePart(parts[0], sep, |parts[0]|);
    } else {
      hide Split, Whole, Closed;
      SplitUndoesJoin(parts[1..], sep);
      FirstPart(parts[0], sep, Join(parts[1..], sep));
      assert [parts[0]] + parts[1..] == parts;
    }
  }

  // ---------------------------------------------------------------- escaping

  predicate NeedsEscape(c: Byte) {
    c in [COMMA, PLUS, 0x22, BACKSLASH, 0x3C, 0x3E, 0x3B]
  }

  /** One byte of the text. The escaped ones are " + , ; < > and the backslash, a leading # or space
      and a trailing space. */
  function EscapeUnit(v: Bytes, i: nat): (r: Bytes)
    requires i < |v|
    ensures r == [v[i]] || r == [0x5C, v[i]]
    ensures |r| == 2 <==>
              || v[i] in {0x22, 0x2B, 0x2C, 0x3B, 0x3C, 0x3E, 0x5C}
              || (i == 0 && (v[i] == 0x20 || v[i] == 0x23)) || (i == |v| - 1 && v[i] == 0x20)
  {
    if NeedsEscape(v[i]) || ((v[i] == HASH || v[i] == SPACE) && i == 0) || (v[i] == SPACE && i == |v| - 1)
    then [BACKSLASH, v[i]]
    else [v[i]]
  }

  function EscapedUpTo(v: Bytes, n: nat): Bytes
    requires n <= |v|
  {
    if n == 0 then [] else EscapedUpTo(v, n - 1) + EscapeUnit(v, n - 1)
  }

  function Escaped(v: Bytes): Bytes {
    EscapedUpTo(v, |v|)
  }

  method EscapeAttributeValue(v: Bytes) returns (sb: Bytes)
    ensures sb == Escaped(v)
  {
    sb := [];
    for i := 0 to |v|
      invariant sb == EscapedUpTo(v, i)
    {
      var c := v[i];
      if NeedsEscape(c) {
        sb := sb + [BACKSLASH, c];
      } else if ((c == HASH || c == SPACE) && i == 0) || (c == SPACE && i == |v| - 1) {
        sb := sb + [BACKSLASH, c];
      } else {
        sb := sb + [c];
      }
    }
  }

  predicate IsHex(c: Byte) {
    0x30 <= c <= 0x39 || 0x61 <= c <= 0x66 || 0x41 <= c <= 0x46
  }

  function HexVal(c: Byte): (v: Byte)
    requires IsHex(c)
    ensures v < 16
  {
    if 0x30 <= c <= 0x39 then c - 0x30 else if 0x61 <= c <= 0x66 then c - 0x61 + 10 else c - 0x41 + 10
  }

  predicate EscapeAccepted(e: Byte) {
    e in [COMMA, PLUS, 0x22, BACKSLASH, 0x3C, 0x3E, 0x3B, SPACE, HASH, EQUALS]
  }

  function Prepend(b: Bytes, r: Result<Bytes>): Result<Bytes> {
    if r.Err? then r else Ok(b + r.value)
  }

  function Unescaped(v: Bytes): Result<Bytes> {
    if v == [] then Ok([])
    else if v[0] != BACKSLASH then Prepend([v[0]], Unescaped(v[1..]))
    else if |v| == 1 then Err(Other)
    else if EscapeAccepted(v[1]) then Prepend([v[1]], Unescaped(v[2..]))
    else if IsHex(v[1]) && 2 < |v| && IsHex(v[2]) then Prepend([HexVal(v[1]) * 16 + HexVal(v[2])], Unescaped(v[3..]))
    else Err(Other)
  }

  method UnescapeAttributeValue(v: Bytes) returns (r: Result<Bytes>)
    ensures r == Unescaped(v)
  {
    var sb: Bytes := [];
    var i := 0;
    assert v[0..] == v;
    PrependPrepend([], [], Unescaped(v));
    while i < |v|
      invariant 0 <= i <= |v|
      invariant Unescaped(v) == Prepend(sb, Unescaped(v[i..]))
    {
      ghost var s, rest := sb, v[i..];
      var c := v[i];
      if c != BACKSLASH {
        sb := sb + [c];
        i := i + 1;
        UnescapedStep(s, rest, 1);
        continue;
      }
      i := i + 1;
      if i >= |v| {
        return Err(Other);
      }
      var e := v[i];
      if EscapeAccepted(e) {
        sb := sb + [e];
        i := i + 1;
        UnescapedStep(s, rest, 2);
      } else {
        if IsHex(e) && i + 1 < |v| && IsHex(v[i + 1]) {
          sb := sb + [HexVal(e) * 16 + HexVal(v[i + 1])];
          i := i + 2;
          UnescapedStep(s, rest, 3);
          continue;
        }
        return Err(Other);
      }
    }
    assert v[i..] == [] && sb + [] == sb;
    return Ok(sb);
  }

  /** What one backslash escapes: ten characters by themselves, and any byte as two hexadecimal digits of
      either case. */
  lemma EscapesRead(c: Byte, d: Byte, rest: Bytes)
    ensures c != 0x5C ==> Unescaped([c] + rest) == Prepend([c], Unescaped(rest))
    ensures c in {0x20, 0x22, 0x23, 0x2B, 0x2C, 0x3B, 0x3C, 0x3D, 0x3E, 0x5C} ==>
              Unescaped([0x5C, c] + rest) == Prepend([c], Unescaped(rest))
    ensures Hex(c as char).Some? && Hex(d as char).Some? ==>
              Unescaped([0x5C, c, d] + rest)
              == Prepend([Hex(c as char).value * 16 + Hex(d as char).value], Unescaped(rest))
    ensures !(Hex(c as char).Some? && Hex(d as char).Some?)
            && c !in {0x20, 0x22, 0x23, 0x2B, 0x2C, 0x3B, 0x3C, 0x3D, 0x3E, 0x5C} ==>
              Unescaped([0x5C, c, d] + rest) == Err(Other)
    ensures Unescaped([0x5C]) == Err(Other)
    ensures Hex(c as char).None? ==>
              Unescaped([0x5C, c])
              == if c in {0x20, 0x22, 0x23, 0x2B, 0x2C, 0x3B, 0x3C, 0x3D, 0x3E, 0x5C} then Ok([c]) else Err(Other)
  {
    hide Prepend;
    assert ([c] + rest)[1..] == rest && ([0x5C, c] + rest)[2..] == rest && ([0x5C, c, d] + rest)[3..] == rest;
    PrependPrepend([c], [], Ok([]));
    OneByte(c);
  }

  lemma OneByte(c: Byte)
    ensures Prepend([c], Unescaped([])) == Ok([c])
    ensures [0x5C, c][2..] == []
  {
    assert [c] + [] == [c];
  }

  /** The value of a hexadecimal digit. */
  function Hex(c: char): (v: Option<Byte>)
    ensures v.Some? ==> v.value < 16
  {
    if '0' <= c <= '9' then Some(c as int - '0' as int)
    else if 'a' <= c <= 'f' then Some(c as int - 'a' as int + 10)
    else if 'A' <= c <= 'F' then Some(c as int - 'A' as int + 10)
    else None
  }

  /** The length of the escape sequence or plain byte that v begins with. */
  function UnitLength(v: Bytes): (n: nat)
    requires |v| > 0
  {
    if v[0] != BACKSLASH then 1 else if |v| > 1 && EscapeAccepted(v[1]) then 2 else 3
  }

  function UnitByte(v: Bytes): Byte
    requires |v| > 0
  {
    if v[0] != BACKSLASH then v[0]
    else if |v| > 1 && EscapeAccepted(v[1]) then v[1]
    else if 2 < |v| && IsHex(v[1]) && IsHex(v[2]) then HexVal(v[1]) * 16 + HexVal(v[2])
    else 0
  }

  lemma UnescapedStep(s: Bytes, rest: Bytes, k: nat)
    requires |rest| > 0 && k == UnitLength(rest) <= |rest|
    requires k == 3 ==> IsHex(rest[1]) && IsHex(rest[2])
    ensures Prepend(s, Unescaped(rest)) == Prepend(s + [UnitByte(rest)], Unescaped(rest[k..]))
  {
    PrependPrepend(s, [UnitByte(rest)], Unescaped(rest[k..]));
    UnescapedUnit(rest, k);
  }

  lemma UnescapedUnit(rest: Bytes, k: nat)
    requires |rest| > 0 && k == UnitLength(rest) <= |rest|
    requires k == 3 ==> IsHex(rest[1]) && IsHex(rest[2])
    ensures Unescaped(rest) == Prepend([UnitByte(rest)], Unescaped(rest[k..]))
  {
    hide Prepend;
  }

  lemma PrependPrepend(s: Bytes, u: Bytes, r: Result<Bytes>)
    ensures Prepend(s, Prepend(u, r)) == Prepend(s + u, r)
    ensures Prepend([], r) == r
  {
    if r.Ok? {
      assert s + (u + r.value) == s + u + r.value;
      assert [] + r.value == r.value;
    }
  }

  /** Everything the printer escapes, the parser restores, whatever follows. */
  lemma {:induction false} UnescapeEscaped(v: Bytes, n: nat, tail: Bytes)
    requires n <= |v|
    ensures Unescaped(EscapedUpTo(v, n) + tail) == Prepend(v[..n], Unescaped(tail))
  {
    if n == 0 {
      assert [] + tail == tail;
      assert Unescaped(tail).Ok? ==> v[..0] + Unescaped(tail).value == Unescaped(tail).value;
    } else {
      var unit := EscapeUnit(v, n - 1);
      assert EscapedUpTo(v, n) + tail == EscapedUpTo(v, n - 1) + (unit + tail);
      UnescapeEscaped(v, n - 1, unit + tail);
      assert (unit + tail)[|unit|..] == tail;
      UnescapedStep(v[..n - 1], unit + tail, |unit|);
      assert v[..n - 1] + [v[n - 1]] == v[..n];
    }
  }

  /** The parser's unescape is a left inverse of the printer's escape. */
  lemma EscapeRoundTrip(v: Bytes)
    ensures Unescaped(Escaped(v)) == Ok(v)
  {
    UnescapeEscaped(v, |v|, []);
    assert Escaped(v) + [] == Escaped(v);
    assert v[..|v|] + [] == v;
  }

  /** Escaped text holds no unescaped separator and ends outside an escape. */
  lemma {:induction false} EscapedIsWhole(v: Bytes, n: nat, sep: Byte)
    requires n <= |v| && (sep == COMMA || sep == PLUS)
    ensures Whole(EscapedUpTo(v, n), sep) && Closed(EscapedUpTo(v, n))
  {
    if n > 0 {
      EscapedIsWhole(v, n - 1, sep);
      var unit := EscapeUnit(v, n - 1);
      assert Whole(unit, sep) && Closed(unit) by {
        assert EscapedAt(unit, 1) == (unit[0] == BACKSLASH);
      }
      WholeConcat(EscapedUpTo(v, n - 1), unit, sep);
    }
  }

  lemma WholeConcat(a: Bytes, b: Bytes, sep: Byte)
    requires Whole(a, sep) && Closed(a) && Whole(b, sep)
    ensures Whole(a + b, sep)
    ensures Closed(b) ==> Closed(a + b)
  {
    forall i | 0 <= i < |a + b| ensures !SplitsAt(a + b, sep, i) {
      if i < |a| {
        EscapedInPrefix(a, b, i);
        assert !SplitsAt(a, sep, i);
      } else {
        EscapedInSuffix(a, b, i - |a|);
        assert !SplitsAt(b, sep, i - |a|);
      }
    }
    EscapedInSuffix(a, b, |b|);
  }

  // ---------------------------------------------------------------- keys

  /** The number of bytes of the UTF-8 white space character that s begins with, or 0. */
  function LeadingSpace(s: Bytes): (n: nat)
    ensures n <= |s|
  {
    if |s| >= 1 && (9 <= s[0] <= 13 || s[0] == SPACE) then 1
    else if |s| >= 2 && s[0] == 0xC2 && (s[1] == 0x85 || s[1] == 0xA0) then 2
    else if |s| >= 3 && IsWideSpace(s[0], s[1], s[2]) then 3
    else 0
  }

  function TrailingSpace(s: Bytes): (n: nat)
    ensures n <= |s|
  {
    var l := |s|;
    if l >= 1 && (9 <= s[l - 1] <= 13 || s[l - 1] == SPACE) then 1
    else if l >= 2 && s[l - 2] == 0xC2 && (s[l - 1] == 0x85 || s[l - 1] == 0xA0) then 2
    else if l >= 3 && IsWideSpace(s[l - 3], s[l - 2], s[l - 1]) then 3
    else 0
  }

  /** U+1680, U+2000 to U+200A, U+2028, U+2029, U+202F, U+205F and U+3000. */
  predicate IsWideSpace(a: Byte, b: Byte, c: Byte) {
    || (a == 0xE1 && b == 0x9A && c == 0x80)
    || (a == 0xE2 && b == 0x80 && (0x80 <= c <= 0x8A || c == 0xA8 || c == 0xA9 || c == 0xAF))
    || (a == 0xE2 && b == 0x81 && c == 0x9F)
    || (a == 0xE3 && b == 0x80 && c == 0x80)
  }

  function TrimLeft(s: Bytes): Bytes {
    if LeadingSpace(s) == 0 then s else TrimLeft(s[LeadingSpace(s)..])
  }

  function TrimRight(s: Bytes): Bytes {
    if TrailingSpace(s) == 0 then s else TrimRight(s[..|s| - TrailingSpace(s)])
  }

  /** The white space characters of unicode.IsSpace. */
  predicate IsSpaceRune(r: int) {
    || 9 <= r <= 13 || r == 0x20 || r == 0x85 || r == 0xA0 || r == 0x1680 || 0x2000 <= r <= 0x200A
    || r == 0x2028 || r == 0x2029 || r == 0x202F || r == 0x205F || r == 0x3000
  }

  /** The UTF-8 form of one of them. */
  ghost predicate IsSpaceCode(b: Bytes) {
    exists r: int :: IsSpaceRune(r) && b == Utf8(r)
  }

  /** The tests at both ends find exactly the UTF-8 forms of the white space characters. */
  lemma SpacesFound(s: Bytes, n: nat)
    requires n <= |s|
    ensures LeadingSpace(s) > 0 ==> IsSpaceCode(s[..LeadingSpace(s)])
    ensures IsSpaceCode(s[..n]) ==> LeadingSpace(s) == n > 0
    ensures TrailingSpace(s) > 0 ==> IsSpaceCode(s[|s| - TrailingSpace(s)..])
    ensures IsSpaceCode(s[|s| - n..]) ==> TrailingSpace(s) == n > 0
  {
    hide LeadingSpace, TrailingSpace, IsSpaceCode;
    LeadingFound(s, n);
    TrailingFound(s, n);
  }

  /** One, two or three octets, as the two tests look for them. */
  predicate SpaceOctets(b: Bytes) {
    || (|b| == 1 && (9 <= b[0] <= 13 || b[0] == SPACE))
    || (|b| == 2 && b[0] == 0xC2 && (b[1] == 0x85 || b[1] == 0xA0))
    || (|b| == 3 && IsWideSpace(b[0], b[1], b[2]))
  }

  lemma WideIsHigh(a: Byte, b: Byte, c: Byte)
    ensures IsWideSpace(a, b, c) ==> 0xE1 <= a && b != 0xC2 && 0x80 <= c
  {
  }

  lemma LeadingFound(s: Bytes, n: nat)
    requires n <= |s|
    ensures LeadingSpace(s) > 0 ==> IsSpaceCode(s[..LeadingSpace(s)])
    ensures IsSpaceCode(s[..n]) ==> LeadingSpace(s) == n > 0
  {
    hide IsSpaceCode, IsWideSpace;
    if |s| >= 3 {
      WideIsHigh(s[0], s[1], s[2]);
    }
    SpaceCodes(s[..LeadingSpace(s)]);
    SpaceCodes(s[..n]);
    var b := s[..n];
    assert forall i :: 0 <= i < n ==> s[i] == b[i];
  }

  lemma TrailingFound(s: Bytes, n: nat)
    requires n <= |s|
    ensures TrailingSpace(s) > 0 ==> IsSpaceCode(s[|s| - TrailingSpace(s)..])
    ensures IsSpaceCode(s[|s| - n..]) ==> TrailingSpace(s) == n > 0
  {
    hide IsSpaceCode, IsWideSpace;
    if |s| >= 3 {
      WideIsHigh(s[|s| - 3], s[|s| - 2], s[|s| - 1]);
    }
    SpaceCodes(s[|s| - TrailingSpace(s)..]);
    SpaceCodes(s[|s| - n..]);
    var b := s[|s| - n..];
    assert forall i :: 0 <= i < n ==> s[|s| - n + i] == b[i];
  }

  lemma SpaceCodes(b: Bytes)
    ensures IsSpaceCode(b) <==> SpaceOctets(b)
  {
    hide IsWideSpace, Utf8;
    if IsSpaceCode(b) {
      var r: int :| IsSpaceRune(r) && b == Utf8(r);
      SpaceRuneOctets(r);
    }
    if SpaceOctets(b) {
      var r := OctetsSpaceRune(b);
    }
  }

  lemma SpaceRuneOctets(r: int)
    requires IsSpaceRune(r)
    ensures SpaceOctets(Utf8(r))
  {
    if 0x2000 <= r <= 0x200A {
      assert r / 0x1000 == 2 && r / 0x40 == 0x80 && r % 0x40 == r - 0x2000;
    }
  }

  lemma OctetsSpaceRune(b: Bytes) returns (r: int)
    requires SpaceOctets(b)
    ensures IsSpaceRune(r) && b == Utf8(r)
  {
    r := if |b| == 1 then b[0] else if |b| == 2 then b[1]
         else (b[0] as int - 0xE0) * 4096 + (b[1] as int - 0x80) * 64 + (b[2] as int - 0x80);
  }

  /** Nothing but white space. */
  ghost predicate Blank(s: Bytes) {
    s == [] || exists n :: 0 < n <= |s| && IsSpaceCode(s[..n]) && Blank(s[n..])
  }

  /** strings.TrimSpace */
  function TrimSpace(s: Bytes): Bytes {
    TrimRight(TrimLeft(s))
  }

  lemma BlankGrows(code: Bytes, b: Bytes)
    requires IsSpaceCode(code) && Blank(b)
    ensures Blank(code + b)
  {
    SpaceCodes(code);
    var s := code + b;
    assert s[..|code|] == code && s[|code|..] == b;
  }

  lemma {:induction false} TrimLeftMeaning(s: Bytes) returns (a: Bytes)
    ensures s == a + TrimLeft(s) && Blank(a) && LeadingSpace(TrimLeft(s)) == 0
    decreases |s|
  {
    hide LeadingSpace, IsSpaceCode, Blank;
    var n := LeadingSpace(s);
    if n == 0 {
      a := [];
      EmptyIsBlank();
    } else {
      SpacesFound(s, 0);
      var code, t := s[..n], s[n..];
      var rest := TrimLeftMeaning(t);
      a := code + rest;
      BlankGrows(code, rest);
      assert s == code + t;
      assert TrimLeft(s) == TrimLeft(t);
      ConcatThree(code, rest, TrimLeft(t));
    }
  }

  lemma ConcatThree(a: Bytes, b: Bytes, c: Bytes)
    ensures a + (b + c) == a + b + c
  {
  }

  lemma {:induction false} TrimRightMeaning(s: Bytes) returns (b: Bytes)
    ensures s == TrimRight(s) + b && Blank(b) && TrailingSpace(TrimRight(s)) == 0
    decreases |s|
  {
    hide TrailingSpace, IsSpaceCode, Blank;
    b := [];
    EmptyIsBlank();
    var t := s;
    while TrailingSpace(t) > 0
      invariant s == t + b && Blank(b) && TrimRight(t) == TrimRight(s)
      decreases |t|
    {
      var n := TrailingSpace(t);
      SpacesFound(t, 0);
      BlankGrows(t[|t| - n..], b);
      assert t == t[..|t| - n] + t[|t| - n..];
      b := t[|t| - n..] + b;
      t := t[..|t| - n];
    }
  }

  lemma EmptyIsBlank()
    ensures Blank([])
  {
  }

  /** Trimming takes white space off both ends, and all of it. */
  lemma TrimSpaceMeaning(s: Bytes) returns (a: Bytes, b: Bytes)
    ensures s == a + TrimSpace(s) + b && Blank(a) && Blank(b)
    ensures forall n :: 0 < n <= |TrimSpace(s)| ==>
                          !IsSpaceCode(TrimSpace(s)[..n]) && !IsSpaceCode(TrimSpace(s)[|TrimSpace(s)| - n..])
  {
    hide LeadingSpace, TrailingSpace, IsSpaceCode, Blank, TrimLeft, TrimRight;
    a := TrimLeftMeaning(s);
    b := TrimRightMeaning(TrimLeft(s));
    var t := TrimSpace(s);
    forall n | 0 < n <= |t|
      ensures !IsSpaceCode(t[..n]) && !IsSpaceCode(t[|t| - n..])
    {
      SpacesFound(t, n);
      SpacesFound(TrimLeft(s), n);
      assert TrimLeft(s)[..n] == t[..n];
    }
  }

  /** strings.ToUpper, as far as an ASCII result can tell: a to z, and U+017F, whose upper case is S. */
  function Upper(s: Bytes): Bytes {
    if s == [] then []
    else if |s| >= 2 && s[0] == 0xC5 && s[1] == 0xBF then [0x53] + Upper(s[2..])
    else [UpperByte(s[0])] + Upper(s[1..])
  }

  function UpperByte(c: Byte): Byte {
    if 0x61 <= c <= 0x7A then c - 0x20 else c
  }

  function Label(a: Attribute): Bytes {
    match a
    case CN => [0x43, 0x4E]
    case OU => [0x4F, 0x55]
    case O => [0x4F]
    case L => [0x4C]
    case ST => [0x53, 0x54]
    case C => [0x43]
  }

  function AttributeByLabel(key: Bytes): Option<Attribute> {
    if key == Label(CN) then Some(CN)
    else if key == Label(OU) then Some(OU)
    else if key == Label(O) then Some(O)
    else if key == Label(L) then Some(L)
    else if key == Label(ST) then Some(ST)
    else if key == Label(C) then Some(C)
    else None
  }

  lemma {:induction false} UpperLength(key: Bytes)
    ensures |Upper(key)| <= |key| <= 2 * |Upper(key)|
  {
    if key != [] {
      UpperLength(key[1..]);
      if |key| >= 2 {
        UpperLength(key[2..]);
      }
    }
  }

  /** The keys of the six types, in any letter case; the upper case of U+017F is S. */
  lemma KeysOfTypes(key: Bytes)
    ensures var a := AttributeByLabel(Upper(key));
            && (a == Some(CN) <==> key in {[0x43, 0x4E], [0x43, 0x6E], [0x63, 0x4E], [0x63, 0x6E]})
            && (a == Some(OU) <==> key in {[0x4F, 0x55], [0x4F, 0x75], [0x6F, 0x55], [0x6F, 0x75]})
            && (a == Some(O) <==> key in {[0x4F], [0x6F]})
            && (a == Some(L) <==> key in {[0x4C], [0x6C]})
            && (a == Some(ST) <==> key in {[0x53, 0x54], [0x53, 0x74], [0x73, 0x54], [0x73, 0x74],
                                           [0xC5, 0xBF, 0x54], [0xC5, 0xBF, 0x74]})
            && (a == Some(C) <==> key in {[0x43], [0x63]})
  {
    hide Upper;
    UpperShort(key);
    if |key| == 1 {
      assert key == [key[0]];
    } else if |key| == 2 {
      assert key == [key[0], key[1]];
    } else if |key| == 3 {
      assert key == [key[0], key[1], key[2]];
    }
  }

  /** The upper case of what can be a key of at most two letters. */
  lemma UpperShort(key: Bytes)
    ensures |key| == 0 ==> Upper(key) == []
    ensures |key| == 1 ==> Upper(key) == [UpperByte(key[0])]
    ensures |key| == 2 ==>
              Upper(key) == if key[0] == 0xC5 && key[1] == 0xBF then [0x53] else [UpperByte(key[0]), UpperByte(key[1])]
    ensures |key| == 3 && key[0] == 0xC5 && key[1] == 0xBF ==> Upper(key) == [0x53, UpperByte(key[2])]
    ensures |key| == 3 && !(key[0] == 0xC5 && key[1] == 0xBF) && key[1] == 0xC5 && key[2] == 0xBF ==>
              Upper(key) == [UpperByte(key[0]), 0x53]
    ensures |key| == 3 && !(key[0] == 0xC5 && key[1] == 0xBF) && !(key[1] == 0xC5 && key[2] == 0xBF) ==>
              |Upper(key)| == 3
    ensures |key| > 3 ==> |Upper(key)| > 2 || Upper(key) == [0x53, 0x53]
  {
    UpperLength(key);
    if |key| == 1 {
      assert key[1..] == [];
    } else if |key| > 1 {
      UpperShort(key[1..]);
      UpperShort(key[2..]);
    }
  }

  lemma LabelReadsBack(a: Attribute)
    ensures TrimSpace(Label(a)) == Label(a)
    ensures AttributeByLabel(Upper(Label(a))) == Some(a)
  {
    var k := Label(a);
    assert |k| <= 2 && forall i :: 0 <= i < |k| ==> 0x41 <= k[i] <= 0x5A;
    assert LeadingSpace(k) == 0 && TrailingSpace(k) == 0;
    assert Upper(k) == k by {
      if |k| == 2 {
        assert Upper(k[1..]) == [k[1]] + Upper(k[1..][1..]);
      }
    }
  }

  /** A first byte that is an upper-case letter survives trimming on the right. */
  lemma {:induction false} TrimRightKeepsLetter(s: Bytes)
    requires |s| > 0 && 0x41 <= s[0] <= 0x5A
    ensures TrimRight(s) != []
  {
    if TrailingSpace(s) != 0 {
      var t := s[..|s| - TrailingSpace(s)];
      assert |t| > 0 && t[0] == s[0];
      TrimRightKeepsLetter(t);
    }
  }

  // ---------------------------------------------------------------- parsing

  /** strings.Cut at the first '='. */
  function FirstEquals(s: Bytes): (r: Option<nat>)
    ensures r.Some? ==> r.value < |s| && s[r.value] == EQUALS && forall i :: 0 <= i < r.value ==> s[i] != EQUALS
    ensures r.None? ==> EQUALS !in s
  {
    if s == [] then None
    else if s[0] == EQUALS then Some(0)
    else
      var r := FirstEquals(s[1..]);
      if r.None? then None else Some(r.value + 1)
  }

  function ParsedComponent(part: Bytes): Result<Pair> {
    var cut := FirstEquals(part);
    if cut.None? || TrimSpace(part[..cut.value]) == [] then Err(Other)
    else
      var rawValue := part[cut.value + 1..];
      if |Split(rawValue, PLUS)| > 1 then Err(Other)
      else if |rawValue| > 0 && rawValue[0] == HASH then Err(Other)
      else
        var value := Unescaped(rawValue);
        if value.Err? then Err(value.error)
        else if value.value == [] then Err(Other)
        else
          var a := AttributeByLabel(Upper(TrimSpace(part[..cut.value])));
          if a.None? then Err(Other) else Ok(Pair(a.value, value.value))
  }

  /** A component is read exactly when the key is that of a type, the value is of one attribute, in
      character form, and not empty. */
  lemma ComponentMeaning(key: Bytes, raw: Bytes)
    requires 0x3D !in key
    ensures var p, a := ParsedComponent(key + [0x3D] + raw), AttributeByLabel(Upper(TrimSpace(key)));
            var good := && a.Some? && Whole(raw, 0x2B) && (raw != [] ==> raw[0] != 0x23)
                        && Unescaped(raw).Ok? && Unescaped(raw).value != [];
            p == if good then Ok(Pair(a.value, Unescaped(raw).value)) else Err(Other)
    ensures ParsedComponent(key) == Err(Other)
  {
    hide TrimSpace, Upper, Whole, Split, Unescaped;
    var part := key + [0x3D] + raw;
    assert part[|key|] == 0x3D;
    assert part[..|key|] == key && part[|key| + 1..] == raw;
    assert forall i :: 0 <= i < |key| ==> part[i] == key[i];
    OnePartIsWhole(raw, PLUS);
    UnescapedError(raw);
    NoEmptyKey();
  }

  lemma NoEmptyKey()
    ensures AttributeByLabel(Upper([])) == None
  {
  }

  lemma OnePartIsWhole(s: Bytes, sep: Byte)
    requires sep != BACKSLASH
    ensures |Split(s, sep)| == 1 <==> Whole(s, sep)
  {
    if Whole(s, sep) {
      WholeIsOnePart(s, sep, |s|);
    }
    if |Split(s, sep)| == 1 {
      SplitParts(s, sep);
      SplitRejoins(s, sep);
      assert Join(Split(s, sep), sep) == Split(s, sep)[0];
    }
  }

  lemma {:induction false} UnescapedError(v: Bytes)
    ensures Unescaped(v).Err? ==> Unescaped(v).error == Other
    decreases |v|
  {
    if |v| > 0 {
      UnescapedError(v[1..]);
      if |v| > 1 {
        UnescapedError(v[2..]);
      }
      if |v| > 2 {
        UnescapedError(v[3..]);
      }
    }
  }

  function ParsedComponents(parts: seq<Bytes>, n: Name): Result<Name>
    decreases |parts|
  {
    if parts == [] then Ok(n)
    else
      var p := ParsedComponent(parts[0]);
      if p.Err? then Err(p.error) else ParsedComponents(parts[1..], Put(n, p.value))
  }

  function ParsedNameString(s: Bytes): Result<Name> {
    if TrimSpace(s) == [] then Err(Other) else ParsedComponents(Split(s, COMMA), EMPTY_NAME)
  }

  method ParseNameString(s: Bytes) returns (r: Result<Name>)
    ensures r == ParsedNameString(s)
  {
    hide TrimSpace, Split, Unescaped, Upper;
    var n := EMPTY_NAME;
    if TrimSpace(s) == [] {
      return Err(Other);
    }
    var parts := SplitUnescaped(s, COMMA);
    assert parts[0..] == parts;
    for i := 0 to |parts|
      invariant ParsedComponents(parts[i..], n) == ParsedNameString(s)
    {
      var part := parts[i];
      assert parts[i..][0] == part && parts[i..][1..] == parts[i + 1..];
      var cut := FirstEquals(part);
      if cut.None? || TrimSpace(part[..cut.value]) == [] {
        return Err(Other);
      }
      var key := TrimSpace(part[..cut.value]);
      var rawValue := part[cut.value + 1..];
      var plus := SplitUnescaped(rawValue, PLUS);
      if |plus| > 1 {
        return Err(Other);
      }
      if |rawValue| > 0 && rawValue[0] == HASH {
        return Err(Other);
      }
      var value := UnescapeAttributeValue(rawValue);
      if value.Err? {
        return Err(value.error);
      }
      if value.value == [] {
        return Err(Other);
      }
      var a := AttributeByLabel(Upper(key));
      if a.None? {
        return Err(Other);
      }
      n := Put(n, Pair(a.value, value.value));
    }
    return Ok(n);
  }

  lemma {:induction false} ComponentsMeaning(parts: seq<Bytes>, n: Name)
    ensures var r := ParsedComponents(parts, n);
            if forall i :: 0 <= i < |parts| ==> ParsedComponent(parts[i]).Ok?
            then exists pairs: seq<Pair> ::
                   && |pairs| == |parts| && r == Ok(PutAll(n, pairs))
                   && forall i :: 0 <= i < |parts| ==> ParsedComponent(parts[i]) == Ok(pairs[i])
            else r == Err(Other)
    decreases |parts|
  {
    hide ParsedComponent;
    if parts == [] {
      var none: seq<Pair> := [];
      assert ParsedComponents(parts, n) == Ok(PutAll(n, none));
    } else {
      ComponentError(parts[0]);
      var first := ParsedComponent(parts[0]);
      if first.Ok? {
        ComponentsMeaning(parts[1..], Put(n, first.value));
        if forall i :: 0 <= i < |parts| ==> ParsedComponent(parts[i]).Ok? {
          assert forall i :: 0 <= i < |parts[1..]| ==> ParsedComponent(parts[1..][i]).Ok?;
          var m := Put(n, first.value);
          var rest: seq<Pair> :| |rest| == |parts[1..]| && ParsedComponents(parts[1..], m) == Ok(PutAll(m, rest))
                                 && forall i :: 0 <= i < |rest| ==> ParsedComponent(parts[1..][i]) == Ok(rest[i]);
          var pairs := [first.value] + rest;
          assert pairs[1..] == rest;
          assert forall i :: 0 < i < |parts| ==> parts[i] == parts[1..][i - 1];
          assert ParsedComponents(parts, n) == Ok(PutAll(n, pairs));
        } else {
          assert exists i :: 0 <= i < |parts[1..]| && !ParsedComponent(parts[1..][i]).Ok? by {
            var i :| 0 <= i < |parts| && !ParsedComponent(parts[i]).Ok?;
            assert parts[i] == parts[1..][i - 1];
          }
        }
      }
    }
  }

  lemma ComponentError(part: Bytes)
    ensures ParsedComponent(part).Err? ==> ParsedComponent(part).error == Other
  {
    hide TrimSpace, Upper, Split, Unescaped;
    if FirstEquals(part).Some? {
      UnescapedError(part[FirstEquals(part).value + 1..]);
    }
  }

  /** A text is read exactly when it is not blank and every component between unescaped commas is; the
      attributes then go into the name from left to right. */
  lemma NameStringMeaning(s: Bytes)
    ensures var r, parts := ParsedNameString(s), Split(s, 0x2C);
            if TrimSpace(s) != [] && forall i :: 0 <= i < |parts| ==> ParsedComponent(parts[i]).Ok?
            then exists pairs: seq<Pair> ::
                   && |pairs| == |parts| && r == Ok(PutAll(EMPTY_NAME, pairs))
                   && forall i :: 0 <= i < |parts| ==> ParsedComponent(parts[i]) == Ok(pairs[i])
            else r == Err(Other)
  {
    hide ParsedComponent, TrimSpace, Split;
    ComponentsMeaning(Split(s, COMMA), EMPTY_NAME);
  }

  // ---------------------------------------------------------------- printing

  function Component(p: Pair): Bytes {
    Label(p.attribute) + [EQUALS] + Escaped(p.value)
  }

  function Components(pairs: seq<Pair>): (r: seq<Bytes>)
    ensures |r| == |pairs|
    ensures forall i :: 0 <= i < |pairs| ==> r[i] == Component(pairs[i])
  {
    seq(|pairs|, i requires 0 <= i < |pairs| => Component(pairs[i]))
  }

  function Printed(n: Name): Bytes {
    Join(Components(TextOrder(n)), COMMA)
  }

  // ---------------------------------------------------------------- what is printed

  /** The position of a printed attribute type: CN, OU, O, L, ST, C. */
  function LabelRank(key: Bytes): nat {
    if key == [0x43, 0x4E] then 0
    else if key == [0x4F, 0x55] then 1
    else if key == [0x4F] then 2
    else if key == [0x4C] then 3
    else if key == [0x53, 0x54] then 4
    else if key == [0x43] then 5
    else 6
  }

  /** What stands before the first '=' of a component. */
  function LabelOf(part: Bytes): Bytes {
    if FirstEquals(part).None? then [] else part[..FirstEquals(part).value]
  }

  /** The values, unescaped, of the components with one label. */
  function ValuesUnder(parts: seq<Bytes>, key: Bytes): seq<Result<Bytes>> {
    if parts == [] then []
    else
      (if FirstEquals(parts[0]).Some? && LabelOf(parts[0]) == key
       then [Unescaped(parts[0][FirstEquals(parts[0]).value + 1..])] else [])
      + ValuesUnder(parts[1..], key)
  }

  function AllOk(values: seq<Bytes>): (r: seq<Result<Bytes>>)
    ensures |r| == |values|
    ensures forall i :: 0 <= i < |values| ==> r[i] == Ok(values[i])
  {
    seq(|values|, i requires 0 <= i < |values| => Ok(values[i]))
  }

  /** The components of a name's text: from the most specific to the most general type, and
      under each type the name's values in order. */
  predicate ShowsName(parts: seq<Bytes>, n: Name) {
    && (forall i, j :: 0 <= i < j < |parts| ==> LabelRank(LabelOf(parts[i])) <= LabelRank(LabelOf(parts[j])) < 6)
    && ValuesUnder(parts, [0x43, 0x4E]) == (if n.commonName == [] then [] else [Ok(n.commonName)])
    && ValuesUnder(parts, [0x4F, 0x55]) == AllOk(n.organizationalUnit)
    && ValuesUnder(parts, [0x4F]) == AllOk(n.organization)
    && ValuesUnder(parts, [0x4C]) == AllOk(n.locality)
    && ValuesUnder(parts, [0x53, 0x54]) == AllOk(n.province)
    && ValuesUnder(parts, [0x43]) == AllOk(n.country)
  }

  lemma {:induction false} ValuesConcat(a: seq<Bytes>, b: seq<Bytes>, key: Bytes)
    ensures ValuesUnder(a + b, key) == ValuesUnder(a, key) + ValuesUnder(b, key)
  {
    if a == [] {
      assert a + b == b;
    } else {
      assert (a + b)[1..] == a[1..] + b;
      ValuesConcat(a[1..], b, key);
    }
  }

  lemma ComponentParts(a: Attribute, v: Bytes)
    ensures var part := Component(Pair(a, v));
            && FirstEquals(part) == Some(|Label(a)|) && LabelOf(part) == Label(a)
            && Unescaped(part[FirstEquals(part).value + 1..]) == Ok(v)
  {
    hide Label;
    CutAtLabel(a, Escaped(v));
    EscapeRoundTrip(v);
  }

  lemma {:induction false} ValuesOfOne(a: Attribute, values: seq<Bytes>, key: Bytes)
    ensures ValuesUnder(Components(Pairs(a, values)), key) == if key == Label(a) then AllOk(values) else []
  {
    hide Component, Label, LabelOf;
    if values != [] {
      ComponentParts(a, values[0]);
      assert Components(Pairs(a, values))[1..] == Components(Pairs(a, values[1..]));
      ValuesOfOne(a, values[1..], key);
      assert AllOk(values) == [Ok(values[0])] + AllOk(values[1..]);
    }
  }

  /** The components of the six fields, and their ranks. */
  lemma {:induction false} RanksOf(pairs: seq<Pair>)
    ensures forall i :: 0 <= i < |pairs| ==>
                          LabelRank(LabelOf(Components(pairs)[i])) == LabelRank(Label(pairs[i].attribute)) < 6
  {
    hide Component;
    forall i | 0 <= i < |pairs|
      ensures LabelRank(LabelOf(Components(pairs)[i])) == LabelRank(Label(pairs[i].attribute)) < 6
    {
      ComponentParts(pairs[i].attribute, pairs[i].value);
    }
  }

  method AppendComponents(parts: seq<Bytes>, a: Attribute, values: seq<Bytes>) returns (r: seq<Bytes>)
    ensures r == parts + Components(Pairs(a, values))
  {
    hide Component, Escaped;
    r := parts;
    for i := 0 to |values|
      invariant |r| == |parts| + i
      invariant r == parts + Components(Pairs(a, values))[..i]
    {
      var escaped := EscapeAttributeValue(values[i]);
      r := r + [Label(a) + [EQUALS] + escaped];
      assert r[|parts| + i] == Component(Pair(a, values[i])) by {
        ComponentIs(a, values[i]);
      }
    }
  }

  lemma ComponentIs(a: Attribute, v: Bytes)
    ensures Component(Pair(a, v)) == Label(a) + [EQUALS] + Escaped(v)
  {
  }

  lemma ComponentsConcat(p: seq<Pair>, q: seq<Pair>)
    ensures Components(p + q) == Components(p) + Components(q)
  {
  }

  /** The text of a name without attributes is empty; any other splits at its unescaped commas into
      components that show the name. */
  method NameString(n: Name) returns (s: Bytes)
    ensures s == Printed(n)
    ensures if n == EMPTY_NAME then s == [] else ShowsName(Split(s, COMMA), n)
  {
    hide ShowsName, Split;
    var parts: seq<Bytes> := [];
    if n.commonName != [] {
      var escaped := EscapeAttributeValue(n.commonName);
      parts := parts + [Label(CN) + [EQUALS] + escaped];
    }
    assert parts == Components(CommonNamePair(n));
    ghost var cn, ou, o, l, st := CommonNamePair(n), Pairs(OU, n.organizationalUnit), Pairs(O, n.organization),
                                  Pairs(L, n.locality), Pairs(ST, n.province);
    parts := AppendComponents(parts, OU, n.organizationalUnit);
    ComponentsConcat(cn, ou);
    parts := AppendComponents(parts, O, n.organization);
    ComponentsConcat(cn + ou, o);
    parts := AppendComponents(parts, L, n.locality);
    ComponentsConcat(cn + ou + o, l);
    parts := AppendComponents(parts, ST, n.province);
    ComponentsConcat(cn + ou + o + l, st);
    parts := AppendComponents(parts, C, n.country);
    ComponentsConcat(cn + ou + o + l + st, Pairs(C, n.country));
    PrintedShowsName(n);
    return Join(parts, COMMA);
  }

  // ---------------------------------------------------------------- round trip

  lemma LabelIsWhole(a: Attribute)
    ensures Whole(Label(a) + [EQUALS], COMMA) && Closed(Label(a) + [EQUALS])
    ensures FirstEquals(Label(a) + [EQUALS]) == Some(|Label(a)|)
  {
  }

  lemma ComponentIsWhole(p: Pair)
    ensures Whole(Component(p), COMMA) && Closed(Component(p))
  {
    LabelIsWhole(p.attribute);
    EscapedIsWhole(p.value, |p.value|, COMMA);
    WholeConcat(Label(p.attribute) + [EQUALS], Escaped(p.value), COMMA);
  }

  lemma EscapedFirst(v: Bytes)
    ensures |v| > 0 ==> |Escaped(v)| > 0 && Escaped(v)[0] != HASH
  {
    if |v| > 0 {
      EscapedStartsWithUnit(v, |v|);
    }
  }

  lemma {:induction false} EscapedStartsWithUnit(v: Bytes, n: nat)
    requires 0 < n <= |v|
    ensures EscapeUnit(v, 0) <= EscapedUpTo(v, n)
  {
    if n > 1 {
      EscapedStartsWithUnit(v, n - 1);
    }
  }

  lemma CutAtLabel(a: Attribute, raw: Bytes)
    ensures var part := Label(a) + [EQUALS] + raw;
            && FirstEquals(part) == Some(|Label(a)|)
            && part[..|Label(a)|] == Label(a)
            && part[|Label(a)| + 1..] == raw
  {
    var part := Label(a) + [EQUALS] + raw;
    assert part[|Label(a)|] == EQUALS;
  }

  /** A printed component reads back as its pair, unless its value is empty. */
  lemma ComponentRoundTrip(p: Pair)
    ensures ParsedComponent(Component(p)) == if p.value == [] then Err(Other) else Ok(p)
  {
    var raw := Escaped(p.value);
    CutAtLabel(p.attribute, raw);
    LabelReadsBack(p.attribute);
    EscapedIsWhole(p.value, |p.value|, PLUS);
    WholeIsOnePart(raw, PLUS, |raw|);
    assert |Split(raw, PLUS)| == 1;
    EscapedFirst(p.value);
    EscapeRoundTrip(p.value);
  }

  predicate NoEmptyValue(pairs: seq<Pair>) {
    forall i :: 0 <= i < |pairs| ==> pairs[i].value != []
  }

  lemma {:induction false} ComponentsRoundTrip(pairs: seq<Pair>, n: Name)
    ensures ParsedComponents(Components(pairs), n)
            == if NoEmptyValue(pairs) then Ok(PutAll(n, pairs)) else Err(Other)
    decreases |pairs|
  {
    hide ParsedComponent, Component;
    if pairs != [] {
      ComponentRoundTrip(pairs[0]);
      assert Components(pairs)[1..] == Components(pairs[1..]);
      ComponentsRoundTrip(pairs[1..], Put(n, pairs[0]));
      assert NoEmptyValue(pairs) <==> pairs[0].value != [] && NoEmptyValue(pairs[1..]);
    }
  }

  /** The names whose text form is lossless. */
  predicate Printable(n: Name) {
    TextOrder(n) != [] && NoEmptyValue(TextOrder(n))
  }

  lemma PrintedSplits(n: Name)
    requires TextOrder(n) != []
    ensures Split(Printed(n), COMMA) == Components(TextOrder(n))
    ensures TrimSpace(Printed(n)) != []
  {
    var pairs := TextOrder(n);
    var parts := Components(pairs);
    forall k | 0 <= k < |parts| ensures Whole(parts[k], COMMA) && Closed(parts[k]) {
      ComponentIsWhole(pairs[k]);
    }
    SplitUndoesJoin(parts, COMMA);
    var s := Printed(n);
    assert |s| > 0 && s[0] == Label(pairs[0].attribute)[0] by {
      assert parts[0][0] == Label(pairs[0].attribute)[0];
    }
    assert 0x41 <= s[0] <= 0x5A;
    assert LeadingSpace(s) == 0;
    TrimRightKeepsLetter(s);
  }

  lemma TextOrderRanks(n: Name)
    ensures forall i, j :: 0 <= i < j < |TextOrder(n)| ==>
                             LabelRank(Label(TextOrder(n)[i].attribute)) <= LabelRank(Label(TextOrder(n)[j].attribute))
  {
  }

  lemma TextOrderValues(n: Name, key: Bytes)
    ensures ValuesUnder(Components(TextOrder(n)), key)
            == if key == Label(CN) then (if n.commonName == [] then [] else [Ok(n.commonName)])
               else if key == Label(OU) then AllOk(n.organizationalUnit)
               else if key == Label(O) then AllOk(n.organization)
               else if key == Label(L) then AllOk(n.locality)
               else if key == Label(ST) then AllOk(n.province)
               else if key == Label(C) then AllOk(n.country)
               else []
  {
    hide Component, ValuesUnder;
    var cn, ou, o, l, st, c := CommonNamePair(n), Pairs(OU, n.organizationalUnit), Pairs(O, n.organization),
                               Pairs(L, n.locality), Pairs(ST, n.province), Pairs(C, n.country);
    ComponentsConcat(cn, ou);
    ComponentsConcat(cn + ou, o);
    ComponentsConcat(cn + ou + o, l);
    ComponentsConcat(cn + ou + o + l, st);
    ComponentsConcat(cn + ou + o + l + st, c);
    ValuesConcat(Components(cn), Components(ou), key);
    ValuesConcat(Components(cn + ou), Components(o), key);
    ValuesConcat(Components(cn + ou + o), Components(l), key);
    ValuesConcat(Components(cn + ou + o + l), Components(st), key);
    ValuesConcat(Components(cn + ou + o + l + st), Components(c), key);
    assert cn == Pairs(CN, if n.commonName == [] then [] else [n.commonName]);
    ValuesOfOne(CN, if n.commonName == [] then [] else [n.commonName], key);
    ValuesOfOne(OU, n.organizationalUnit, key);
    ValuesOfOne(O, n.organization, key);
    ValuesOfOne(L, n.locality, key);
    ValuesOfOne(ST, n.province, key);
    ValuesOfOne(C, n.country, key);
  }

  /** What the text of a name shows. */
  lemma PrintedShowsName(n: Name)
    ensures if n == EMPTY_NAME then Printed(n) == [] else ShowsName(Split(Printed(n), COMMA), n)
  {
    hide Split, Component, ValuesUnder, TextOrder, LabelOf, LabelRank;
    NoAttributes(n);
    if n != EMPTY_NAME {
      PrintedSplits(n);
      TextOrderRanks(n);
      RanksOf(TextOrder(n));
      TextOrderValues(n, [0x43, 0x4E]);
      TextOrderValues(n, [0x4F, 0x55]);
      TextOrderValues(n, [0x4F]);
      TextOrderValues(n, [0x4C]);
      TextOrderValues(n, [0x53, 0x54]);
      TextOrderValues(n, [0x43]);
    }
  }

  lemma NoAttributes(n: Name)
    ensures n == EMPTY_NAME <==> TextOrder(n) == []
  {
  }

  /** Printing and parsing gives the same name back exactly for the names with at least one
      attribute and no empty value. */
  lemma TextRoundTrip(n: Name)
    ensures ParsedNameString(Printed(n)) == Ok(n) <==> Printable(n)
    ensures !Printable(n) ==> ParsedNameString(Printed(n)).Err?
  {
    if TextOrder(n) == [] {
      assert Printed(n) == [];
      assert TrimSpace([]) == [];
    } else {
      PrintedSplits(n);
      ComponentsRoundTrip(TextOrder(n), EMPTY_NAME);
      TextOrderRebuilds(n);
    }
  }

  lemma PutKeepsNoEmptyValue(n: Name, p: Pair)
    requires NoEmptyValue(TextOrder(n)) && p.value != []
    ensures Printable(Put(n, p))
  {
    var m := Put(n, p);
    forall i | 0 <= i < |TextOrder(m)| ensures TextOrder(m)[i].value != [] {
      var q := TextOrder(m)[i];
      assert q == p || q in TextOrder(n) by {
        PutPairs(n, p, q);
      }
    }
    assert p in TextOrder(m) by { PutAdds(n, p); }
  }

  lemma InPairs(a: Attribute, values: seq<Bytes>, q: Pair)
    ensures q in Pairs(a, values) <==> q.attribute == a && q.value in values
  {
    if q.attribute == a && q.value in values {
      var i :| 0 <= i < |values| && values[i] == q.value;
      assert Pairs(a, values)[i] == q;
    }
  }

  lemma InTextOrder(n: Name, q: Pair)
    ensures q in TextOrder(n) <==>
            match q.attribute
            case C => q.value in n.country
            case ST => q.value in n.province
            case L => q.value in n.locality
            case O => q.value in n.organization
            case OU => q.value in n.organizationalUnit
            case CN => q.value == n.commonName != []
  {
    InPairs(C, n.country, q);
    InPairs(ST, n.province, q);
    InPairs(L, n.locality, q);
    InPairs(O, n.organization, q);
    InPairs(OU, n.organizationalUnit, q);
    assert q in CommonNamePair(n) <==> q.attribute == CN && q.value == n.commonName != [];
  }

  lemma PutPairs(n: Name, p: Pair, q: Pair)
    requires q in TextOrder(Put(n, p))
    ensures q == p || q in TextOrder(n)
  {
    hide TextOrder;
    InTextOrder(Put(n, p), q);
    InTextOrder(n, q);
  }

  lemma PutAdds(n: Name, p: Pair)
    requires p.value != []
    ensures p in TextOrder(Put(n, p))
  {
    hide TextOrder;
    InTextOrder(Put(n, p), p);
  }

  lemma {:induction false} AcceptedIsPrintable(parts: seq<Bytes>, n: Name)
    requires NoEmptyValue(TextOrder(n)) && ParsedComponents(parts, n).Ok?
    requires parts == [] ==> Printable(n)
    ensures Printable(ParsedComponents(parts, n).value)
    decreases |parts|
  {
    hide TextOrder, Printable, NoEmptyValue;
    if parts != [] {
      var p := ParsedComponent(parts[0]).value;
      PutKeepsNoEmptyValue(n, p);
      PrintableHasNoEmpty(Put(n, p));
      AcceptedIsPrintable(parts[1..], Put(n, p));
    }
  }

  lemma PrintableHasNoEmpty(n: Name)
    ensures Printable(n) ==> NoEmptyValue(TextOrder(n))
  {
  }

  /** Whatever text is accepted, printing the result and parsing again changes nothing. */
  lemma ParsePrintParse(s: Bytes)
    requires ParsedNameString(s).Ok?
    ensures ParsedNameString(Printed(ParsedNameString(s).value)) == ParsedNameString(s)
  {
    AcceptedIsPrintable(Split(s, COMMA), EMPTY_NAME);
    TextRoundTrip(ParsedNameString(s).value);
  }
}
