/**
  The handshake message: how `send_rdma_info` lays it out in a zeroed buffer, moving a cursor, and how
  `receive_rdma_info` reads it back. Words are 8 bytes, least significant first.
 */
module RdmaInfo {
  import opened Common

  const WORD := 8
  const WORD_LIMIT := 0x1_0000_0000_0000_0000

  type Word = x: nat | x < WORD_LIMIT

  /** The two addresses and the two packed remote keys of one side. */
  datatype Info = Info(dataAddr: Word, flagAddr: Word, dataKey: seq<byte>, flagKey: seq<byte>)

  // ---- words as bytes ----

  function ToBytes(v: nat, n: nat): (b: seq<byte>)
    ensures |b| == n
  {
    if n == 0 then [] else [(v % 256) as byte] + ToBytes(v / 256, n - 1)
  }

  function FromBytes(b: seq<byte>): nat {
    if b == [] then 0 else b[0] as nat + 256 * FromBytes(b[1..])
  }

  function Pow256(n: nat): nat {
    if n == 0 then 1 else 256 * Pow256(n - 1)
  }

  lemma {:induction false} FromToBytes(v: nat, n: nat)
    requires v < Pow256(n)
    ensures FromBytes(ToBytes(v, n)) == v
  {
    if n > 0 {
      FromToBytes(v / 256, n - 1);
      assert ToBytes(v, n)[1..] == ToBytes(v / 256, n - 1);
    }
  }

  lemma FirstByte(w: nat, n: nat)
    ensures ToBytes(w, n) == if n == 0 then [] else [(w % 256) as byte] + ToBytes(w / 256, n - 1)
  {}

  lemma LowestByte(d: nat, r: nat)
    requires d < 256
    ensures (d + 256 * r) % 256 == d && (d + 256 * r) / 256 == r
  {}

  lemma {:induction false} ToFromBytes(b: seq<byte>)
    ensures FromBytes(b) < Pow256(|b|)
    ensures ToBytes(FromBytes(b), |b|) == b
  {
    if b != [] {
      var d, r := b[0] as nat, FromBytes(b[1..]);
      ToFromBytes(b[1..]);
      LowestByte(d, r);
      FirstByte(FromBytes(b), |b|);
      hide ToBytes;
      assert FromBytes(b) == d + 256 * r;
      assert b == [b[0]] + b[1..];
    }
  }

  lemma WordRange()
    ensures Pow256(WORD) == WORD_LIMIT
  {
    assert Pow256(4) == 0x1_0000_0000;
    assert Pow256(6) == 256 * 256 * Pow256(4);
    assert Pow256(8) == 256 * 256 * Pow256(6);
  }

  function ToWord(b: seq<byte>): Word
    requires |b| == WORD
  {
    ToFromBytes(b);
    WordRange();
    FromBytes(b)
  }

  function Zeros(n: nat): seq<byte> {
    seq(n, _ => 0)
  }

  // ---- the format ----

  /** Four words: the lengths of the two keys and the two addresses. */
  function Header(info: Info): (h: seq<byte>)
    ensures |h| == 4 * WORD
  {
    ToBytes(|info.dataKey|, WORD) + ToBytes(|info.flagKey|, WORD)
    + ToBytes(info.dataAddr, WORD) + ToBytes(info.flagAddr, WORD)
  }

  /** The message for `info`: the header, then each key followed by a word of zeros. */
  function Layout(info: Info): seq<byte> {
    Header(info) + info.dataKey + Zeros(WORD) + info.flagKey + Zeros(WORD)
  }

  /** Where the reader's cursor ends, given the declared key lengths. */
  function Extent(sizeData: nat, sizeFlag: nat): nat {
    6 * WORD + sizeData + sizeFlag
  }

  /** What the reader makes of a message; None where its closing assert on the cursor fails. */
  function Parse(b: seq<byte>): Option<Info> {
    if |b| < 4 * WORD then None
    else
      var sizeData, sizeFlag := ToWord(b[..WORD]), ToWord(b[WORD..2 * WORD]);
      if |b| != Extent(sizeData, sizeFlag) then None
      else
        var flagKeyAt := 5 * WORD + sizeData;
        Some(Info(ToWord(b[2 * WORD..3 * WORD]), ToWord(b[3 * WORD..4 * WORD]),
                  b[4 * WORD..4 * WORD + sizeData], b[flagKeyAt..flagKeyAt + sizeFlag]))
  }

  predicate Sendable(info: Info) {
    |info.dataKey| < WORD_LIMIT && |info.flagKey| < WORD_LIMIT
  }

  lemma HeaderWords(info: Info)
    requires Sendable(info)
    ensures var h := Header(info);
      && ToWord(h[..WORD]) == |info.dataKey| && ToWord(h[WORD..2 * WORD]) == |info.flagKey|
      && ToWord(h[2 * WORD..3 * WORD]) == info.dataAddr && ToWord(h[3 * WORD..]) == info.flagAddr
  {
    WordRange();
    var h := Header(info);
    FromToBytes(|info.dataKey|, WORD);
    FromToBytes(|info.flagKey|, WORD);
    FromToBytes(info.dataAddr, WORD);
    FromToBytes(info.flagAddr, WORD);
    assert h[..WORD] == ToBytes(|info.dataKey|, WORD);
    assert h[WORD..2 * WORD] == ToBytes(|info.flagKey|, WORD);
    assert h[2 * WORD..3 * WORD] == ToBytes(info.dataAddr, WORD);
    assert h[3 * WORD..] == ToBytes(info.flagAddr, WORD);
  }

  lemma Sections(b: seq<byte>, h: seq<byte>, k1: seq<byte>, z1: seq<byte>, k2: seq<byte>, z2: seq<byte>)
    requires b == h + k1 + z1 + k2 + z2 && |h| == 4 * WORD && |z1| == |z2| == WORD
    ensures |b| == Extent(|k1|, |k2|)
    ensures b[..WORD] == h[..WORD] && b[WORD..2 * WORD] == h[WORD..2 * WORD]
    ensures b[2 * WORD..3 * WORD] == h[2 * WORD..3 * WORD] && b[3 * WORD..4 * WORD] == h[3 * WORD..]
    ensures b[4 * WORD..4 * WORD + |k1|] == k1
    ensures b[4 * WORD + |k1|..5 * WORD + |k1|] == z1
    ensures b[5 * WORD + |k1|..5 * WORD + |k1| + |k2|] == k2
    ensures b[5 * WORD + |k1| + |k2|..] == z2
  {}

  /** For all addresses and keys, reading what was written gives them back. */
  lemma RoundTrip(info: Info)
    requires Sendable(info)
    ensures |Layout(info)| == Extent(|info.dataKey|, |info.flagKey|)
    ensures Parse(Layout(info)) == Some(info)
  {
    hide Header, ToWord, ToBytes;
    HeaderWords(info);
    Sections(Layout(info), Header(info), info.dataKey, Zeros(WORD), info.flagKey, Zeros(WORD));
  }

  // ---- byte by byte ----

  lemma DivideTwice(v: nat, p: nat)
    requires 0 < p
    ensures v / 256 / p == v / (256 * p)
  {
    var q, m := v / 256, 256 * p;
    var a, b := q / p, v / m;
    assert q == a * p + q % p && v == b * m + v % m;
    assert a * m == 256 * (a * p);
    MulLess(a, b, m);
    MulLess(b, a, m);
  }

  /** Byte `k` of a word has the weight 256^k. */
  lemma {:induction false} ByteAt(v: nat, n: nat, k: nat)
    requires k < n
    ensures Pow256(k) > 0 && ToBytes(v, n)[k] as nat == v / Pow256(k) % 256
  {
    if k > 0 {
      ByteAt(v / 256, n - 1, k - 1);
      DivideTwice(v, Pow256(k - 1));
    }
  }

  /** The first four words of the message: the length of either key, then either address. */
  lemma HeaderBytes(info: Info, k: nat)
    requires k < WORD
    ensures var b, p := Layout(info), Pow256(k);
      && p > 0 && |b| == 48 + |info.dataKey| + |info.flagKey|
      && b[k] as nat == |info.dataKey| / p % 256 && b[8 + k] as nat == |info.flagKey| / p % 256
      && b[16 + k] as nat == info.dataAddr / p % 256 && b[24 + k] as nat == info.flagAddr / p % 256
  {
    ByteAt(|info.dataKey|, WORD, k);
    ByteAt(|info.flagKey|, WORD, k);
    ByteAt(info.dataAddr, WORD, k);
    ByteAt(info.flagAddr, WORD, k);
    hide ToBytes, Pow256;
  }

  /** The words the reader skips are zero. */
  predicate Terminated(b: seq<byte>, info: Info) {
    var at := 4 * WORD + |info.dataKey|;
    && |b| == Extent(|info.dataKey|, |info.flagKey|)
    && b[at..at + WORD] == Zeros(WORD)
    && b[at + WORD + |info.flagKey|..] == Zeros(WORD)
  }

  lemma WordBytes(b: seq<byte>)
    requires |b| == WORD
    ensures ToBytes(ToWord(b), WORD) == b
  {
    ToFromBytes(b);
  }

  lemma HeaderFields(b: seq<byte>, info: Info)
    requires Parse(b) == Some(info)
    ensures |b| == Extent(|info.dataKey|, |info.flagKey|) && Sendable(info)
    ensures ToWord(b[..WORD]) == |info.dataKey| && ToWord(b[WORD..2 * WORD]) == |info.flagKey|
    ensures ToWord(b[2 * WORD..3 * WORD]) == info.dataAddr && ToWord(b[3 * WORD..4 * WORD]) == info.flagAddr
  {
    hide ToWord;
  }

  lemma FourWords(b: seq<byte>)
    requires |b| >= 4 * WORD
    ensures b[..4 * WORD] == b[..WORD] + b[WORD..2 * WORD] + b[2 * WORD..3 * WORD] + b[3 * WORD..4 * WORD]
  {}

  lemma HeaderRead(b: seq<byte>, info: Info)
    requires Parse(b) == Some(info)
    ensures Sendable(info) && |b| == Extent(|info.dataKey|, |info.flagKey|)
    ensures b[..4 * WORD] == Header(info)
  {
    HeaderFields(b, info);
    hide Parse, ToWord, ToBytes;
    WordBytes(b[..WORD]);
    WordBytes(b[WORD..2 * WORD]);
    WordBytes(b[2 * WORD..3 * WORD]);
    WordBytes(b[3 * WORD..4 * WORD]);
    FourWords(b);
  }

  /** Conversely, a message that reads as `info` is the one written for it, up to the skipped words. */
  lemma ReadImpliesWritten(b: seq<byte>, info: Info)
    requires Parse(b) == Some(info)
    ensures Sendable(info)
    ensures Terminated(b, info) <==> b == Layout(info)
  {
    HeaderRead(b, info);
    hide Header, ToWord, ToBytes;
    var at := 4 * WORD + |info.dataKey|;
    var end := at + WORD + |info.flagKey|;
    Sections(Layout(info), Header(info), info.dataKey, Zeros(WORD), info.flagKey, Zeros(WORD));
    assert b == b[..4 * WORD] + b[4 * WORD..at] + b[at..at + WORD] + b[at + WORD..end] + b[end..];
  }

  // ---- the code ----

  /** `*(uint64_t *)pos = v; pos += 8`. */
  method WriteWord(a: array<byte>, pos: nat, v: Word) returns (next: nat)
    requires pos + WORD <= a.Length
    modifies a
    ensures next == pos + WORD
    ensures a[..next] == old(a[..pos]) + ToBytes(v, WORD)
    ensures forall k | next <= k < a.Length :: a[k] == old(a[k])
  {
    hide ToBytes;
    var w, i := v, 0;
    while i < WORD
      invariant 0 <= i <= WORD
      invariant a[..pos] == old(a[..pos])
      invariant forall k | pos + WORD <= k < a.Length :: a[k] == old(a[k])
      invariant a[pos..pos + i] + ToBytes(w, WORD - i) == ToBytes(v, WORD)
    {
      ghost var written := a[pos..pos + i];
      FirstByte(w, WORD - i);
      a[pos + i] := (w % 256) as byte;
      assert a[pos..pos + i + 1] == written + [(w % 256) as byte];
      w := w / 256;
      i := i + 1;
    }
    FirstByte(w, 0);
    next := pos + WORD;
    assert a[..next] == a[..pos] + a[pos..next];
  }

  /** `memcpy(pos, src, |src|); pos += |src|`. */
  method CopyBytes(a: array<byte>, pos: nat, src: seq<byte>) returns (next: nat)
    requires pos + |src| <= a.Length
    modifies a
    ensures next == pos + |src|
    ensures a[..next] == old(a[..pos]) + src
    ensures forall k | next <= k < a.Length :: a[k] == old(a[k])
  {
    for i := 0 to |src|
      invariant a[..pos + i] == old(a[..pos]) + src[..i]
      invariant forall k | pos + |src| <= k < a.Length :: a[k] == old(a[k])
    {
      a[pos + i] := src[i];
      assert a[..pos + i + 1] == a[..pos + i] + [src[i]];
    }
    next := pos + |src|;
  }

  method WriteHeader(a: array<byte>, info: Info) returns (pos: nat)
    requires Sendable(info) && 4 * WORD <= a.Length
    modifies a
    ensures pos == 4 * WORD
    ensures a[..pos] == Header(info)
    ensures forall k | pos <= k < a.Length :: a[k] == old(a[k])
  {
    hide ToBytes;
    pos := WriteWord(a, 0, |info.dataKey|);
    assert a[..pos] == ToBytes(|info.dataKey|, WORD);
    pos := WriteWord(a, pos, |info.flagKey|);
    pos := WriteWord(a, pos, info.dataAddr);
    pos := WriteWord(a, pos, info.flagAddr);
  }

  /** The part of `send_rdma_info` that fills the message; the cursor ends at the end of the buffer. */
  method SendRdmaInfo(info: Info) returns (msg: array<byte>)
    requires Sendable(info)
    ensures fresh(msg) && msg[..] == Layout(info)
  {
    hide Header;
    var size := WORD * 2 + WORD * 2 + |info.dataKey| + |info.flagKey| + WORD * 2;
    msg := new byte[size](_ => 0);
    var pos := WriteHeader(msg, info);
    pos := CopyBytes(msg, pos, info.dataKey);
    ghost var keyEnd := pos;
    pos := pos + WORD;
    assert msg[keyEnd..pos] == Zeros(WORD);
    assert msg[..pos] == msg[..keyEnd] + msg[keyEnd..pos];
    pos := CopyBytes(msg, pos, info.flagKey);
    keyEnd := pos;
    pos := pos + WORD;
    assert pos == msg.Length;
    assert msg[keyEnd..] == Zeros(WORD);
    assert msg[..] == msg[..keyEnd] + msg[keyEnd..];
  }

  /** `*(uint64_t *)pos`. */
  method ReadWord(a: array<byte>, pos: nat) returns (v: Word)
    requires pos + WORD <= a.Length
    ensures v == ToWord(a[pos..pos + WORD])
  {
    var r := 0;
    var i := WORD;
    while i > 0
      invariant 0 <= i <= WORD
      invariant r == FromBytes(a[pos + i..pos + WORD])
    {
      i := i - 1;
      assert a[pos + i..pos + WORD] == [a[pos + i]] + a[pos + i + 1..pos + WORD];
      r := a[pos + i] as nat + 256 * r;
    }
    ToFromBytes(a[pos..pos + WORD]);
    WordRange();
    v := r;
  }

  /** The part of `receive_rdma_info` that reads the message. */
  method ReceiveRdmaInfo(msg: array<byte>) returns (r: Option<Info>)
    ensures r == Parse(msg[..])
  {
    if msg.Length < 4 * WORD {
      return None;
    }
    var b := msg[..];
    var pos := 0;
    var sizeData := ReadWord(msg, pos);
    pos := pos + WORD;
    var sizeFlag := ReadWord(msg, pos);
    pos := pos + WORD;
    var dataAddr := ReadWord(msg, pos);
    pos := pos + WORD;
    var flagAddr := ReadWord(msg, pos);
    pos := pos + WORD;
    var dataKeyAt := pos;
    pos := pos + sizeData;
    pos := pos + WORD;
    var flagKeyAt := pos;
    pos := pos + sizeFlag;
    pos := pos + WORD;
    assert msg[..WORD] == b[..WORD] && msg[WORD..2 * WORD] == b[WORD..2 * WORD];
    if pos != msg.Length {
      return None;
    }
    r := Some(Info(dataAddr, flagAddr, msg[dataKeyAt..dataKeyAt + sizeData], msg[flagKeyAt..flagKeyAt + sizeFlag]));
  }
}
