/**
The byte framing of CPace (draft-irtf-cfrg-cpace-14): LEB128 lengths, the
generator string and the input of the session key hash.
*/
module Framing {
  import opened Common

  type Bytes = seq<Byte>

  const BLOCK_SIZE: nat := 128

  /** The bytes of a string of ASCII characters. */
  function Ascii(s: string): Bytes
    requires forall i :: 0 <= i < |s| ==> s[i] as int < 128
  {
    seq(|s|, i requires 0 <= i < |s| => s[i] as int)
  }

  /** The two domain separation strings of the suite. */
  const DSI: Bytes := Ascii("CPaceRistretto255")
  const DSI_ISK: Bytes := Ascii("CPaceRistretto255_ISK")

  // ----------------------------------------------------------------- LEB128

  function Leb(n: nat): Bytes {
    if n < 128 then [n] else [n % 128 + 128] + Leb(n / 128)
  }

  function PrependLen(data: Bytes): Bytes {
    Leb(|data|) + data
  }

  /** The length at the front of `s` and how many bytes it takes. */
  function LengthOf(s: Bytes): Option<(nat, nat)> {
    if |s| == 0 then None
    else if s[0] < 128 then Some((s[0], 1))
    else
      match LengthOf(s[1..])
      case None => None
      case Some((high, width)) => Some((high * 128 + s[0] - 128, width + 1))
  }

  /** The framed bytes at the front of `s` and what follows them. */
  function Unframe(s: Bytes): Option<(Bytes, Bytes)> {
    match LengthOf(s)
    case None => None
    case Some((length, width)) =>
      if width + length > |s| then None else Some((s[width..width + length], s[width + length..]))
  }

  /** Decoding the length inverts the encoding loop, for every length. */
  lemma {:induction false} LebRoundTrip(n: nat, rest: Bytes)
    ensures LengthOf(Leb(n) + rest) == Some((n, |Leb(n)|))
  {
    if n >= 128 {
      LebRoundTrip(n / 128, rest);
      assert (Leb(n) + rest)[1..] == Leb(n / 128) + rest;
    }
  }

  lemma FrameRoundTrip(data: Bytes, rest: Bytes)
    ensures Unframe(PrependLen(data) + rest) == Some((data, rest))
  {
    LebRoundTrip(|data|, data + rest);
    assert PrependLen(data) + rest == Leb(|data|) + (data + rest);
  }

  /** A frame is no proper prefix of another, and can be split off in one way. */
  lemma FramesArePrefixFree(a: Bytes, x: Bytes, b: Bytes, y: Bytes)
    requires PrependLen(a) + x == PrependLen(b) + y
    ensures a == b && x == y
  {
    FrameRoundTrip(a, x);
    FrameRoundTrip(b, y);
  }

  lemma LebUnfolds(n: nat)
    ensures Leb(n) == if n < 128 then [n] else [n % 128 + 128] + Leb(n / 128)
  {
  }

  /** The encoding loop, run on the bytes of the program. */
  method EncodeFrame(data: Bytes) returns (framed: Bytes)
    ensures framed == PrependLen(data)
  {
    hide Leb;
    var length: nat := |data|;
    var encoded: Bytes := [];
    while true
      invariant encoded + Leb(length) == Leb(|data|)
      decreases length
    {
      LebUnfolds(length);
      if length < 128 {
        encoded := encoded + [length];
      } else {
        encoded := encoded + [length % 128 + 128];
      }
      length := length / 128;
      if length == 0 { break; }
    }
    framed := encoded + data;
  }

  // ------------------------------------------------------------ many frames

  function LvCat(parts: seq<Bytes>): Bytes {
    if |parts| == 0 then [] else PrependLen(parts[0]) + LvCat(parts[1..])
  }

  lemma {:induction false} LvCatAppend(a: seq<Bytes>, b: seq<Bytes>)
    ensures LvCat(a + b) == LvCat(a) + LvCat(b)
  {
    hide PrependLen;
    if |a| == 0 {
      assert a + b == b;
    } else {
      LvCatAppend(a[1..], b);
      assert (a + b)[1..] == a[1..] + b;
    }
  }

  method EncodeFrames(parts: seq<Bytes>) returns (out: Bytes)
    ensures out == LvCat(parts)
  {
    out := [];
    for i := 0 to |parts|
      invariant out == LvCat(parts[..i])
    {
      var framed := EncodeFrame(parts[i]);
      LvCatAppend(parts[..i], [parts[i]]);
      assert parts[..i + 1] == parts[..i] + [parts[i]];
      assert LvCat([parts[i]]) == PrependLen(parts[i]) + LvCat([]);
      out := out + framed;
    }
    assert parts[..|parts|] == parts;
  }

  /** A concatenation of frames determines how many there are and what each says. */
  lemma {:induction false} FramesAreUniquelyDecodable(a: seq<Bytes>, b: seq<Bytes>)
    requires LvCat(a) == LvCat(b)
    ensures a == b
  {
    if |a| == 0 || |b| == 0 {
    } else {
      FramesArePrefixFree(a[0], LvCat(a[1..]), b[0], LvCat(b[1..]));
      FramesAreUniquelyDecodable(a[1..], b[1..]);
      assert a == [a[0]] + a[1..] && b == [b[0]] + b[1..];
    }
  }

  // -------------------------------------------------------- generator string

  function Zeros(n: nat): Bytes {
    seq(n, _ => 0)
  }

  function Padding(prs: Bytes): nat {
    var pad := BLOCK_SIZE - 1 - |PrependLen(prs)| - |PrependLen(DSI)|;
    if pad < 0 then 0 else pad
  }

  function GeneratorString(prs: Bytes, ci: Bytes, sid: Bytes): Bytes {
    LvCat([DSI, prs, Zeros(Padding(prs)), ci, sid])
  }

  /** The generator string determines the code, the channel and the session. */
  lemma GeneratorStringIsInjective(prs: Bytes, ci: Bytes, sid: Bytes, prs': Bytes, ci': Bytes, sid': Bytes)
    ensures GeneratorString(prs, ci, sid) == GeneratorString(prs', ci', sid')
            <==> prs == prs' && ci == ci' && sid == sid'
  {
    if GeneratorString(prs, ci, sid) == GeneratorString(prs', ci', sid') {
      var a := [DSI, prs, Zeros(Padding(prs)), ci, sid];
      var b := [DSI, prs', Zeros(Padding(prs')), ci', sid'];
      FramesAreUniquelyDecodable(a, b);
      assert a[1] == b[1] && a[3] == b[3] && a[4] == b[4];
    }
  }

  lemma {:induction false} LebLength(n: nat)
    ensures |Leb(n)| >= 1
    ensures |Leb(n)| == 1 <==> n < 128
  {
    if n >= 128 { LebLength(n / 128); }
  }

  lemma LvCat3(a: Bytes, b: Bytes, c: Bytes)
    ensures LvCat([a, b, c]) == PrependLen(a) + PrependLen(b) + PrependLen(c)
  {
    LvCatAppend([a], [b, c]);
    LvCatAppend([b], [c]);
    assert [a] + [b, c] == [a, b, c] && [b] + [c] == [b, c];
    assert LvCat([a]) == PrependLen(a) + LvCat([]);
    assert LvCat([b]) == PrependLen(b) + LvCat([]);
    assert LvCat([c]) == PrependLen(c) + LvCat([]);
  }

  /** The separator, the code and the padding fill the first hash block exactly,
  for every code of at most 108 bytes and for no longer one; what follows the
  block is the channel and the session alone. The padding is zeros. */
  lemma FirstBlockIsFull(prs: Bytes, ci: Bytes, sid: Bytes)
    ensures var head := LvCat([DSI, prs, Zeros(Padding(prs))]);
            && GeneratorString(prs, ci, sid) == head + LvCat([ci, sid])
            && |head| >= BLOCK_SIZE
            && (|head| == BLOCK_SIZE <==> |prs| <= 108)
            && head[|head| - |Zeros(Padding(prs))|..] == seq(Padding(prs), _ => 0)
  {
    var zeros := Zeros(Padding(prs));
    LvCatAppend([DSI, prs, zeros], [ci, sid]);
    assert [DSI, prs, zeros] + [ci, sid] == [DSI, prs, zeros, ci, sid];
    LvCat3(DSI, prs, zeros);
    LebLength(|DSI|);
    LebLength(|prs|);
    LebLength(|zeros|);
  }

  // ------------------------------------------------------- session key input

  function IskInput(sid: Bytes, k: Bytes, ya: Bytes, adA: Bytes, yb: Bytes, adB: Bytes): Bytes {
    LvCat([DSI_ISK, sid, k]) + LvCat([ya, adA]) + LvCat([yb, adB])
  }

  lemma IskInputIsOneList(sid: Bytes, k: Bytes, ya: Bytes, adA: Bytes, yb: Bytes, adB: Bytes)
    ensures IskInput(sid, k, ya, adA, yb, adB) == LvCat([DSI_ISK, sid, k, ya, adA, yb, adB])
  {
    var a, b, c := [DSI_ISK, sid, k], [ya, adA], [yb, adB];
    LvCatAppend(a, b);
    LvCatAppend(a + b, c);
    assert a + b + c == [DSI_ISK, sid, k, ya, adA, yb, adB];
  }

  /** The input of the session key hash determines every field of the transcript. */
  lemma IskInputIsInjective(sid: Bytes, k: Bytes, ya: Bytes, adA: Bytes, yb: Bytes, adB: Bytes,
                            sid': Bytes, k': Bytes, ya': Bytes, adA': Bytes, yb': Bytes, adB': Bytes)
    ensures IskInput(sid, k, ya, adA, yb, adB) == IskInput(sid', k', ya', adA', yb', adB')
            <==> sid == sid' && k == k' && ya == ya' && adA == adA' && yb == yb' && adB == adB'
  {
    if IskInput(sid, k, ya, adA, yb, adB) == IskInput(sid', k', ya', adA', yb', adB') {
      IskInputIsOneList(sid, k, ya, adA, yb, adB);
      IskInputIsOneList(sid', k', ya', adA', yb', adB');
      var a := [DSI_ISK, sid, k, ya, adA, yb, adB];
      var b := [DSI_ISK, sid', k', ya', adA', yb', adB'];
      FramesAreUniquelyDecodable(a, b);
      assert a[1] == b[1] && a[2] == b[2] && a[3] == b[3] && a[4] == b[4] && a[5] == b[5] && a[6] == b[6];
    }
  }

  /** The generator and the session key never hash the same bytes. */
  lemma HashInputsAreSeparated(prs: Bytes, ci: Bytes, sid: Bytes,
                               sid': Bytes, k: Bytes, ya: Bytes, adA: Bytes, yb: Bytes, adB: Bytes)
    ensures GeneratorString(prs, ci, sid) != IskInput(sid', k, ya, adA, yb, adB)
  {
    IskInputIsOneList(sid', k, ya, adA, yb, adB);
    var a, b := [DSI, prs, Zeros(Padding(prs)), ci, sid], [DSI_ISK, sid', k, ya, adA, yb, adB];
    if LvCat(a) == LvCat(b) {
      FramesAreUniquelyDecodable(a, b);
      assert false;
    }
  }
}
