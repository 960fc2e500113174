/** The bytes of a page. Pages are kept as their 64-bit words, as the page tables need them; memmove() and readi()
    see bytes, eight to a word, the lowest first. */
module PageBytes {
  import opened Sv39
  import opened PageTables

  type byte = x: int | 0 <= x < 256

  function WordByte(w: nat, k: nat): byte {
    if k == 0 then w % 256 else WordByte(w / 256, k - 1)
  }

  lemma HighBytes(h: nat, low: byte)
    ensures var x := 256 * h + low; forall j: nat :: WordByte(x, j) == if j == 0 then low else WordByte(h, j - 1)
  {
    assert (256 * h + low) / 256 == h && (256 * h + low) % 256 == low;
  }

  /** The word with byte k replaced. */
  function WithByte(w: nat, k: nat, b: byte): (r: nat)
    ensures forall j: nat :: WordByte(r, j) == if j == k then b else WordByte(w, j)
  {
    HighBytes(w / 256, w % 256);
    if k == 0 then HighBytes(w / 256, b); 256 * (w / 256) + b else
    var h := WithByte(w / 256, k - 1, b);
    HighBytes(h, w % 256);
    256 * h + w % 256
  }

  function ByteAt(p: Page, i: nat): byte
    requires i < PGSIZE
  {
    WordByte(p[i / 8], i % 8)
  }

  function PutByte(p: Page, i: nat, b: byte): (r: Page)
    requires i < PGSIZE
    ensures forall j: nat | j < PGSIZE :: ByteAt(r, j) == if j == i then b else ByteAt(p, j)
  {
    p[i / 8 := WithByte(p[i / 8], i % 8, b)]
  }

  /** memmove() of `data` to position `at` of the page. */
  function PutBytes(p: Page, at: nat, data: seq<byte>): (r: Page)
    requires at + |data| <= PGSIZE
    ensures forall j: nat | j < PGSIZE :: ByteAt(r, j) == if at <= j < at + |data| then data[j - at] else ByteAt(p, j)
    decreases |data|
  {
    if data == [] then p else
    var n := |data| - 1;
    PutByte(PutBytes(p, at, data[..n]), at + n, data[n])
  }

  lemma {:induction false} ZeroWord(k: nat)
    ensures WordByte(0, k) == 0
  {
    if k > 0 { ZeroWord(k - 1); }
  }

  lemma ZeroBytes(i: nat)
    requires i < PGSIZE
    ensures ByteAt(Filled(0), i) == 0
  {
    ZeroWord(i % 8);
  }

  /** The eight bytes of a word. */
  function Bytes8(w: nat): (bs: seq<byte>)
    ensures |bs| == 8 && forall k | 0 <= k < 8 :: bs[k] == WordByte(w, k)
  {
    seq(8, k requires 0 <= k < 8 => WordByte(w, k))
  }

  /** The bytes of an array of words. */
  function Bytes(ws: seq<nat>): (bs: seq<byte>)
    ensures |bs| == 8 * |ws| && forall j | 0 <= j < |bs| :: bs[j] == WordByte(ws[j / 8], j % 8)
  {
    if ws == [] then [] else
    var n := |ws| - 1;
    Bytes(ws[..n]) + Bytes8(ws[n])
  }
}
