/** The ITCH 5.0 messages: big-endian byte writers of the synthetic feed, the decoder, and the
    round trip between them. */
module Itch {
  import opened Options
  import opened SymbolTable

  const DAY: nat := 86_400_000_000_000
  const MAX_QUANTITY: nat := 1_000_000_000
  const MAX_PRICE: nat := 0xFFFF_FFFF

  const ADD: byte := 65
  const ADD_MPID: byte := 70
  const EXECUTED: byte := 69
  const EXECUTED_PRICE: byte := 67
  const CANCEL: byte := 88
  const DELETE: byte := 68
  const REPLACE: byte := 85
  const TRADE: byte := 80
  const CROSS: byte := 81
  const ACTION: byte := 72
  const REG_SHO: byte := 89

  const LETTER_B: byte := 66
  const LETTER_S: byte := 83
  const LETTER_Y: byte := 89
  const LETTER_N: byte := 78
  const LETTER_H: byte := 72
  const LETTER_P: byte := 80
  const DIGIT_0: byte := 48

  const FLAG_BUY: nat := 1
  const FLAG_PRINTABLE: nat := 2
  const FLAG_CROSS: nat := 4
  const FLAG_HALTED: nat := 8
  const FLAG_RESTRICTED: nat := 16

  datatype Tick = Tick(kind: byte, time: nat, symbol: nat, ref: nat, qty: nat, price: nat, matchNum: nat, flags: nat)

  // ----- Big-endian numbers -----

  /** The number in a run of bytes, most significant first. */
  function Number(bytes: seq<byte>): nat {
    if bytes == [] then 0 else 256 * Number(bytes[..|bytes| - 1]) + bytes[|bytes| - 1]
  }

  /** The low `n` bytes of a number, most significant first. */
  function Bytes(v: nat, n: nat): (r: seq<byte>)
    ensures |r| == n
  {
    if n == 0 then [] else Bytes(v / 256, n - 1) + [v % 256]
  }

  function Power(n: nat): (r: nat)
    ensures r > 0
  {
    if n == 0 then 1 else 256 * Power(n - 1)
  }

  /** A number shifted right by `k` bytes. */
  function Shift(v: nat, k: nat): nat {
    if k == 0 then v else Shift(v / 256, k - 1)
  }

  /** Writing a number and reading it back. */
  lemma {:induction false} ReadBack(v: nat, n: nat)
    requires v < Power(n)
    ensures Number(Bytes(v, n)) == v
  {
    if n > 0 {
      ReadBack(v / 256, n - 1);
      assert Bytes(v, n)[..n - 1] == Bytes(v / 256, n - 1);
    }
  }

  /** The bytes as the writers compute them: shift and keep the low byte. */
  lemma {:induction false} ByteAt(v: nat, n: nat, i: nat)
    requires i < n
    ensures Bytes(v, n)[i] == Shift(v, n - 1 - i) % 256
  {
    if i < n - 1 {
      ByteAt(v / 256, n - 1, i);
    }
  }

  /** A number splits into its upper and lower bytes. */
  lemma {:induction false} NumberSplit(a: seq<byte>, b: seq<byte>)
    ensures Number(a + b) == Number(a) * Power(|b|) + Number(b)
  {
    if b == [] {
      assert a + b == a;
    } else {
      var last := |b| - 1;
      NumberSplit(a, b[..last]);
      assert (a + b)[..|a + b| - 1] == a + b[..last];
      Reorder(Number(a), Power(last));
    }
  }

  lemma Reorder(n: nat, p: nat)
    ensures n * (256 * p) == 256 * (n * p)
  {
  }

  lemma Powers()
    ensures Power(2) == 0x1_0000 && Power(4) == 0x1_0000_0000 && Power(6) == 0x1_0000_0000_0000 &&
            Power(8) == 0x1_0000_0000_0000_0000
  {
    assert Power(1) == 256 && Power(2) == 256 * Power(1) && Power(3) == 256 * Power(2) && Power(4) == 256 * Power(3);
    assert Power(5) == 256 * Power(4) && Power(6) == 256 * Power(5) && Power(7) == 256 * Power(6) &&
           Power(8) == 256 * Power(7);
  }

  function Be16(raw: seq<byte>, at: nat): nat
    requires at + 2 <= |raw|
  {
    Number(raw[at..at + 2])
  }

  function Be32(raw: seq<byte>, at: nat): nat
    requires at + 4 <= |raw|
  {
    Number(raw[at..at + 4])
  }

  function Be64(raw: seq<byte>, at: nat): nat
    requires at + 8 <= |raw|
  {
    Number(raw[at..at + 8])
  }

  /** The 48-bit timestamp from a 16-bit and a 32-bit part. */
  function Be48(raw: seq<byte>, at: nat): nat
    requires at + 6 <= |raw|
  {
    Be16(raw, at) * 0x1_0000_0000 + Be32(raw, at + 2)
  }

  lemma Be48IsNumber(raw: seq<byte>, at: nat)
    requires at + 6 <= |raw|
    ensures Be48(raw, at) == Number(raw[at..at + 6])
  {
    Powers();
    NumberSplit(raw[at..at + 2], raw[at + 2..at + 6]);
    assert raw[at..at + 6] == raw[at..at + 2] + raw[at + 2..at + 6];
  }

  lemma TwoBytes(a: byte, b: byte)
    ensures Number([a, b]) == 256 * (a as int) + b
  {
    assert [a, b][..1] == [a] && [a][..0] == [];
    assert Number([a]) == a as int;
  }

  /** The most significant byte comes first. */
  lemma BigEndian(raw: seq<byte>, at: nat)
    requires at + 8 <= |raw|
    ensures Be16(raw, at) == 256 * (raw[at] as int) + raw[at + 1]
    ensures Be32(raw, at) == 0x1_0000 * Be16(raw, at) + Be16(raw, at + 2)
    ensures Be64(raw, at) == 0x1_0000_0000 * Be32(raw, at) + Be32(raw, at + 4)
  {
    Powers();
    TwoBytes(raw[at], raw[at + 1]);
    assert raw[at..at + 2] == [raw[at], raw[at + 1]];
    assert raw[at..at + 4] == raw[at..at + 2] + raw[at + 2..at + 4];
    NumberSplit(raw[at..at + 2], raw[at + 2..at + 4]);
    assert raw[at..at + 8] == raw[at..at + 4] + raw[at + 4..at + 8];
    NumberSplit(raw[at..at + 4], raw[at + 4..at + 8]);
  }

  // ----- The decoder -----

  function MinimumLength(kind: byte): nat {
    if kind == ADD then 36 else if kind == ADD_MPID then 40 else if kind == EXECUTED then 31
      else if kind == EXECUTED_PRICE then 36
    else if kind == CANCEL then 23 else if kind == DELETE then 19 else if kind == REPLACE then 35
      else if kind == TRADE then 44
    else if kind == CROSS then 40 else if kind == ACTION then 25 else if kind == REG_SHO then 20 else 0
  }

  /** Where a message type carries its ticker; 0 for the types that use the stock locate. */
  function TickerAt(kind: byte): nat {
    if kind == ADD || kind == ADD_MPID || kind == TRADE then 24 else if kind == CROSS then 19 else if kind == ACTION ||
      kind == REG_SHO then 11 else 0
  }

  predicate IsQuantity(q: nat) {
    1 <= q <= MAX_QUANTITY
  }

  predicate IsPrice(p: nat) {
    1 <= p <= MAX_PRICE
  }

  predicate IsSide(b: byte) {
    b == LETTER_B || b == LETTER_S
  }

  /** The message, given what its ticker resolves to. */
  function DecodeWith(raw: seq<byte>, symbols: nat, found: int): Option<Tick>
    requires 0 <= found <= NOT_FOUND
  {
    if |raw| < 11 || |raw| < MinimumLength(raw[0]) then None
    else
      var kind, time, locate := raw[0], Be48(raw, 5), Be16(raw, 1);
      if time >= DAY then None
      else if kind == ADD || kind == ADD_MPID then
        if found == NOT_FOUND || Be64(raw, 11) == 0 || !IsQuantity(Be32(raw, 20)) || !IsPrice(Be32(raw, 32)) ||
          !IsSide(raw[19]) then None
        else Some(Tick(kind, time, found, Be64(raw, 11), Be32(raw, 20), Be32(raw, 32), 0,
          if raw[19] == LETTER_B then FLAG_BUY else 0))
      else if kind == EXECUTED then
        if locate >= symbols || Be64(raw, 11) == 0 || !IsQuantity(Be32(raw, 19)) then None
        else Some(Tick(kind, time, locate, Be64(raw, 11), Be32(raw, 19), 0, Be64(raw, 23), FLAG_PRINTABLE))
      else if kind == EXECUTED_PRICE then
        if locate >= symbols || Be64(raw, 11) == 0 || !IsQuantity(Be32(raw, 19)) || !IsPrice(Be32(raw, 32)) ||
          (raw[31] != LETTER_Y && raw[31] != LETTER_N) then None
        else Some(Tick(kind, time, locate, Be64(raw, 11), Be32(raw, 19), Be32(raw, 32), Be64(raw, 23),
          if raw[31] == LETTER_Y then FLAG_PRINTABLE else 0))
      else if kind == CANCEL then
        if locate >= symbols || Be64(raw, 11) == 0 || !IsQuantity(Be32(raw, 19)) then None
        else Some(Tick(kind, time, locate, Be64(raw, 11), Be32(raw, 19), 0, 0, 0))
      else if kind == DELETE then
        if locate >= symbols || Be64(raw, 11) == 0 then None
          else Some(Tick(kind, time, locate, Be64(raw, 11), 0, 0, 0, 0))
      else if kind == REPLACE then
        if locate >= symbols || Be64(raw, 11) == 0 || Be64(raw, 19) == 0 || Be64(raw, 11) == Be64(raw, 19) ||
           !IsQuantity(Be32(raw, 27)) || !IsPrice(Be32(raw, 31)) then None
        else Some(Tick(kind, time, locate, Be64(raw, 11), Be32(raw, 27), Be32(raw, 31), Be64(raw, 19), 0))
      else if kind == TRADE then
        if found == NOT_FOUND || !IsQuantity(Be32(raw, 20)) || !IsPrice(Be32(raw, 32)) || !IsSide(raw[19]) then None
        else Some(Tick(kind, time, found, Be64(raw, 11), Be32(raw, 20), Be32(raw, 32), Be64(raw, 36),
          FLAG_PRINTABLE + if raw[19] == LETTER_B then FLAG_BUY else 0))
      else if kind == CROSS then
        if found == NOT_FOUND || Be64(raw, 11) > MAX_QUANTITY || !IsPrice(Be32(raw, 27)) then None
        else Some(Tick(kind, time, found, 0, Be64(raw, 11), Be32(raw, 27), Be64(raw, 31), FLAG_PRINTABLE + FLAG_CROSS))
      else if kind == ACTION then
        if found == NOT_FOUND then None
          else Some(Tick(kind, time, found, 0, 0, 0, 0,
          if raw[19] == LETTER_H || raw[19] == LETTER_P then FLAG_HALTED else 0))
      else if kind == REG_SHO then
        if found == NOT_FOUND then None
        else Some(Tick(kind, time, found, 0, 0, 0, 0,
          if raw[19] == DIGIT_0 + 1 || raw[19] == DIGIT_0 + 2 then FLAG_RESTRICTED else 0))
      else None
  }

  /** The message under a map from tickers to symbols. */
  function Decode(raw: seq<byte>, symbols: nat, m: map<Ticker, nat>): Option<Tick>
    requires forall k :: k in m ==> m[k] < NOT_FOUND
  {
    if |raw| < 11 || |raw| < MinimumLength(raw[0]) || TickerAt(raw[0]) == 0 then DecodeWith(raw, symbols, NOT_FOUND)
    else
      var key := raw[TickerAt(raw[0])..TickerAt(raw[0]) + 8];
      DecodeWith(raw, symbols, if key in m then m[key] else NOT_FOUND)
  }

  /** The decoder as it runs, against the symbol table. */
  method DecodeItch(raw: seq<byte>, table: Table) returns (r: Option<Tick>)
    requires table.Valid() && forall k :: k in table.contents ==> table.contents[k] < NOT_FOUND
    ensures r == Decode(raw, table.g.symbols, table.contents)
  {
    if |raw| < 11 || |raw| < MinimumLength(raw[0]) {
      return None;
    }
    var found := NOT_FOUND;
    var at := TickerAt(raw[0]);
    if at != 0 {
      found := table.Lookup(raw[at..at + 8]);
    }
    r := DecodeWith(raw, table.g.symbols, found);
  }

  // ----- The writers -----

  method PutU16(dst: array<byte>, at: nat, v: nat)
    requires at + 2 <= dst.Length
    modifies dst
    ensures dst[..at + 2] == old(dst[..at]) + Bytes(v, 2)
  {
    dst[at], dst[at + 1] := Shift(v, 1) % 256, v % 256;
    forall i | 0 <= i < 2 ensures dst[at + i] == Bytes(v, 2)[i] {
      ByteAt(v, 2, i);
    }
  }

  method PutU32(dst: array<byte>, at: nat, v: nat)
    requires at + 4 <= dst.Length
    modifies dst
    ensures dst[..at + 4] == old(dst[..at]) + Bytes(v, 4)
  {
    dst[at], dst[at + 1], dst[at + 2], dst[at + 3] := Shift(v, 3) % 256, Shift(v, 2) % 256, Shift(v, 1) % 256, v % 256;
    forall i | 0 <= i < 4 ensures dst[at + i] == Bytes(v, 4)[i] {
      ByteAt(v, 4, i);
    }
  }

  method PutU48(dst: array<byte>, at: nat, v: nat)
    requires at + 6 <= dst.Length
    modifies dst
    ensures dst[..at + 6] == old(dst[..at]) + Bytes(v, 6)
  {
    dst[at], dst[at + 1], dst[at + 2], dst[at + 3] := Shift(v, 5) % 256, Shift(v, 4) % 256, Shift(v, 3) % 256,
      Shift(v, 2) % 256;
    dst[at + 4], dst[at + 5] := Shift(v, 1) % 256, v % 256;
    forall i | 0 <= i < 6 ensures dst[at + i] == Bytes(v, 6)[i] {
      ByteAt(v, 6, i);
    }
  }

  method PutFour(dst: array<byte>, at: nat, a: byte, b: byte, c: byte, d: byte)
    requires at + 4 <= dst.Length
    modifies dst
    ensures dst[..at + 4] == old(dst[..at]) + [a, b, c, d]
  {
    dst[at], dst[at + 1], dst[at + 2], dst[at + 3] := a, b, c, d;
  }

  lemma EightBytes(v: nat)
    ensures Bytes(v, 8) == [Shift(v, 7) % 256, Shift(v, 6) % 256, Shift(v, 5) % 256, Shift(v, 4) % 256] +
                           [Shift(v, 3) % 256, Shift(v, 2) % 256, Shift(v, 1) % 256, v % 256]
  {
    forall i | 0 <= i < 8 ensures Bytes(v, 8)[i] == Shift(v, 7 - i) % 256 {
      ByteAt(v, 8, i);
    }
  }

  method PutU64(dst: array<byte>, at: nat, v: nat)
    requires at + 8 <= dst.Length
    modifies dst
    ensures dst[..at + 8] == old(dst[..at]) + Bytes(v, 8)
  {
    PutFour(dst, at, Shift(v, 7) % 256, Shift(v, 6) % 256, Shift(v, 5) % 256, Shift(v, 4) % 256);
    PutFour(dst, at + 4, Shift(v, 3) % 256, Shift(v, 2) % 256, Shift(v, 1) % 256, v % 256);
    EightBytes(v);
  }

  /** A ticker: a letter and the low seven decimal digits. */
  function Stock(i: nat): (r: Ticker)
    ensures |r| == 8
  {
    [LETTER_S] + Digits(i, 7)
  }

  function Digits(v: nat, n: nat): (r: seq<byte>)
    ensures |r| == n
  {
    if n == 0 then [] else Digits(v / 10, n - 1) + [DIGIT_0 + v % 10]
  }

  function Power10(n: nat): (r: nat)
    ensures r > 0
  {
    if n == 0 then 1 else 10 * Power10(n - 1)
  }

  lemma {:induction false} DigitsDiffer(v: nat, w: nat, n: nat)
    requires v < Power10(n) && w < Power10(n) && Digits(v, n) == Digits(w, n)
    ensures v == w
  {
    if n > 0 {
      assert Digits(v, n)[..n - 1] == Digits(v / 10, n - 1) && Digits(w, n)[..n - 1] == Digits(w / 10, n - 1);
      assert Digits(v, n)[n - 1] == DIGIT_0 + v % 10 && Digits(w, n)[n - 1] == DIGIT_0 + w % 10;
      DigitsDiffer(v / 10, w / 10, n - 1);
    }
  }

  /** Symbols below ten million have different tickers. */
  lemma StocksDiffer(i: nat, j: nat)
    requires i < 10_000_000 && j < 10_000_000 && Stock(i) == Stock(j)
    ensures i == j
  {
    assert Stock(i)[1..] == Digits(i, 7) && Stock(j)[1..] == Digits(j, 7);
    assert Power10(1) == 10 && Power10(2) == 100 && Power10(3) == 1_000 && Power10(4) == 10_000;
    assert Power10(5) == 10 * Power10(4) && Power10(6) == 10 * Power10(5) && Power10(7) == 10 * Power10(6);
    DigitsDiffer(i, j, 7);
  }

  /** The letter S, then the seven lowest decimal digits from the highest on. */
  lemma {:induction false} DigitAt(v: nat, n: nat, k: nat)
    requires k < n
    ensures Digits(v, n)[n - 1 - k] == '0' as int + v / Power10(k) % 10
  {
    if k > 0 {
      DigitAt(v / 10, n - 1, k - 1);
      TenTimes(v, Power10(k - 1));
    }
  }

  lemma TenTimes(v: nat, p: nat)
    requires p > 0
    ensures v / 10 / p == v / (10 * p)
  {
    var q, r := v / 10 / p, v / 10 % p;
    assert v / 10 == q * p + r;
    assert v == 10 * (q * p + r) + v % 10;
    Quotient(v, 10 * p, q, 10 * r + v % 10);
  }

  lemma Quotient(v: nat, d: nat, q: nat, r: nat)
    requires d > 0 && r < d && v == q * d + r
    ensures v / d == q
  {
    var x, y := v / d, v % d;
    assert (q - x) * d == y - r;
    SmallMultiple(q - x, d);
  }

  lemma SmallMultiple(k: int, d: int)
    requires -d < k * d < d
    ensures k == 0
  {
    assert k >= 1 ==> k * d >= d;
    assert k <= -1 ==> k * d <= -d;
  }

  lemma StockSpelled(i: nat, k: nat)
    requires k < 7
    ensures Stock(i)[0] == 'S' as int && Stock(i)[7 - k] == '0' as int + i / Power10(k) % 10
  {
    DigitAt(i, 7, k);
    assert Stock(i)[7 - k] == Digits(i, 7)[6 - k];
  }

  /** Fills the digits from the right. */
  method FormatStock(i: nat) returns (stock: Ticker)
    ensures stock == Stock(i)
  {
    stock := [];
    var rest, offset := i, 8;
    while offset > 1
      invariant 1 <= offset <= 8 && Digits(i, 7) == Digits(rest, offset - 1) + stock
    {
      offset := offset - 1;
      stock := [DIGIT_0 + rest % 10] + stock;
      rest := rest / 10;
    }
    stock := [LETTER_S] + stock;
  }

  // ----- Every message type on the wire -----
  //
  // For each type, what the decoder makes of any message with the type's layout, whatever its
  // fields and whatever bytes follow it: which are refused, and the fields of the rest.

  /** The type and flag letters of the ITCH 5.0 specification. */
  lemma Letters()
    ensures ADD == 'A' as int && ADD_MPID == 'F' as int && EXECUTED == 'E' as int && EXECUTED_PRICE == 'C' as int &&
            CANCEL == 'X' as int && DELETE == 'D' as int && REPLACE == 'U' as int && TRADE == 'P' as int &&
            CROSS == 'Q' as int && ACTION == 'H' as int && REG_SHO == 'Y' as int
    ensures LETTER_B == 'B' as int && LETTER_S == 'S' as int && LETTER_Y == 'Y' as int && LETTER_N == 'N' as int &&
            LETTER_H == 'H' as int && LETTER_P == 'P' as int && DIGIT_0 == '0' as int
    ensures DAY == 24 * 60 * 60 * 1_000_000_000
  {
  }

  predicate Word(v: nat, n: nat) {
    v < Power(n)
  }

  predicate HeadFits(locate: nat, tracking: nat, ts: nat) {
    Word(locate, 2) && Word(tracking, 2) && Word(ts, 6)
  }

  /** Type, stock locate, tracking number and time. */
  function Head(kind: byte, locate: nat, tracking: nat, ts: nat): (r: seq<byte>)
    ensures |r| == 11
  {
    [kind] + Bytes(locate, 2) + Bytes(tracking, 2) + Bytes(ts, 6)
  }

  /** What the decoder reads of a field that stands after `a`. */
  lemma Field(raw: seq<byte>, a: seq<byte>, v: nat, n: nat, z: seq<byte>)
    requires raw == a + Bytes(v, n) + z && Word(v, n)
    ensures |raw| >= |a| + n && Number(raw[|a|..|a| + n]) == v
  {
    assert raw[|a|..|a| + n] == Bytes(v, n);
    ReadBack(v, n);
  }

  lemma Part(raw: seq<byte>, a: seq<byte>, f: seq<byte>, z: seq<byte>)
    requires raw == a + f + z
    ensures |raw| >= |a| + |f| && raw[|a|..|a| + |f|] == f && (|f| == 1 ==> raw[|a|] == f[0])
  {
    assert |f| == 1 ==> raw[|a|..|a| + 1][0] == raw[|a|];
  }

  lemma Regrouped(a: seq<byte>, b: seq<byte>, c: seq<byte>)
    ensures a + b + c == a + (b + c)
  {
  }

  lemma HeadReads(raw: seq<byte>, kind: byte, locate: nat, tracking: nat, ts: nat, z: seq<byte>)
    requires raw == Head(kind, locate, tracking, ts) + z && HeadFits(locate, tracking, ts)
    ensures |raw| >= 11 && raw[0] == kind && Be16(raw, 1) == locate && Be48(raw, 5) == ts
  {
    var l, t, s := Bytes(locate, 2), Bytes(tracking, 2), Bytes(ts, 6);
    assert raw == [kind] + l + (t + s + z);
    Field(raw, [kind], locate, 2, t + s + z);
    assert raw == ([kind] + l + t) + s + z;
    Field(raw, [kind] + l + t, ts, 6, z);
    Be48IsNumber(raw, 5);
  }

  function AddWire(kind: byte, locate: nat, tracking: nat, ts: nat, ref: nat, side: byte, shares: nat, stock: Ticker,
      price: nat): (r: seq<byte>)
    requires |stock| == 8
    ensures |r| == 36
  {
    Head(kind, locate, tracking, ts) + Bytes(ref, 8) + [side] + Bytes(shares, 4) + stock + Bytes(price, 4)
  }

  lemma AddReads(raw: seq<byte>, kind: byte, locate: nat, tracking: nat, ts: nat, ref: nat, side: byte, shares: nat,
      stock: Ticker, price: nat, tail: seq<byte>)
    requires HeadFits(locate, tracking, ts) && Word(ref, 8) && Word(shares, 4) && Word(price, 4) && |stock| == 8
    requires kind == ADD || (kind == ADD_MPID && |tail| >= 4)
    requires raw == AddWire(kind, locate, tracking, ts, ref, side, shares, stock, price) + tail
    ensures |raw| >= 36 && raw[0] == kind && Be16(raw, 1) == locate && Be48(raw, 5) == ts
    ensures Number(raw[11..19]) == ref && raw[19] == side && Number(raw[20..24]) == shares && raw[24..32] == stock &&
            Number(raw[32..36]) == price
  {
    var h := Head(kind, locate, tracking, ts);
    var p1 := h + Bytes(ref, 8);
    var p2 := p1 + [side];
    var p3 := p2 + Bytes(shares, 4);
    var p4 := p3 + stock;
    Field(raw, p4, price, 4, tail);
    Regrouped(p4, Bytes(price, 4), tail);
    var z4 := Bytes(price, 4) + tail;
    Part(raw, p3, stock, z4);
    Regrouped(p3, stock, z4);
    var z3 := stock + z4;
    Field(raw, p2, shares, 4, z3);
    Regrouped(p2, Bytes(shares, 4), z3);
    var z2 := Bytes(shares, 4) + z3;
    Part(raw, p1, [side], z2);
    Regrouped(p1, [side], z2);
    var z1 := [side] + z2;
    Field(raw, h, ref, 8, z1);
    Regrouped(h, Bytes(ref, 8), z1);
    HeadReads(raw, kind, locate, tracking, ts, Bytes(ref, 8) + z1);
  }

  lemma AddDecodes(kind: byte, locate: nat, tracking: nat, ts: nat, ref: nat, side: byte, shares: nat, stock: Ticker,
      price: nat, tail: seq<byte>, symbols: nat, m: map<Ticker, nat>)
    requires HeadFits(locate, tracking, ts) && Word(ref, 8) && Word(shares, 4) && Word(price, 4) && |stock| == 8
    requires kind == ADD || (kind == ADD_MPID && |tail| >= 4)
    requires forall k :: k in m ==> m[k] < NOT_FOUND
    ensures Decode(AddWire(kind, locate, tracking, ts, ref, side, shares, stock, price) + tail, symbols, m) ==
            if ts < 86_400_000_000_000 && stock in m && ref != 0 && 1 <= shares <= 1_000_000_000 && 1 <= price &&
            (side == LETTER_B || side == LETTER_S)
            then Some(Tick(kind, ts, m[stock], ref, shares, price, 0, if side == LETTER_B then FLAG_BUY else 0))
            else None
  {
    Powers();
    AddReads(AddWire(kind, locate, tracking, ts, ref, side, shares, stock, price) + tail, kind, locate, tracking, ts,
      ref, side, shares, stock, price, tail);
  }

  function ExecutedWire(locate: nat, tracking: nat, ts: nat, ref: nat, shares: nat, matchNum: nat): (r: seq<byte>)
    ensures |r| == 31
  {
    Head(EXECUTED, locate, tracking, ts) + Bytes(ref, 8) + Bytes(shares, 4) + Bytes(matchNum, 8)
  }

  lemma ExecutedReads(raw: seq<byte>, locate: nat, tracking: nat, ts: nat, ref: nat, shares: nat, matchNum: nat,
      tail: seq<byte>)
    requires HeadFits(locate, tracking, ts) && Word(ref, 8) && Word(shares, 4) && Word(matchNum, 8)
    requires raw == ExecutedWire(locate, tracking, ts, ref, shares, matchNum) + tail
    ensures |raw| >= 31 && raw[0] == EXECUTED && Be16(raw, 1) == locate && Be48(raw, 5) == ts
    ensures Number(raw[11..19]) == ref && Number(raw[19..23]) == shares && Number(raw[23..31]) == matchNum
  {
    var h := Head(EXECUTED, locate, tracking, ts);
    var p1 := h + Bytes(ref, 8);
    var p2 := p1 + Bytes(shares, 4);
    Field(raw, p2, matchNum, 8, tail);
    Regrouped(p2, Bytes(matchNum, 8), tail);
    var z2 := Bytes(matchNum, 8) + tail;
    Field(raw, p1, shares, 4, z2);
    Regrouped(p1, Bytes(shares, 4), z2);
    var z1 := Bytes(shares, 4) + z2;
    Field(raw, h, ref, 8, z1);
    Regrouped(h, Bytes(ref, 8), z1);
    HeadReads(raw, EXECUTED, locate, tracking, ts, Bytes(ref, 8) + z1);
  }

  lemma ExecutedDecodes(locate: nat, tracking: nat, ts: nat, ref: nat, shares: nat, matchNum: nat, tail: seq<byte>,
      symbols: nat, m: map<Ticker, nat>)
    requires HeadFits(locate, tracking, ts) && Word(ref, 8) && Word(shares, 4) && Word(matchNum, 8)
    requires forall k :: k in m ==> m[k] < NOT_FOUND
    ensures Decode(ExecutedWire(locate, tracking, ts, ref, shares, matchNum) + tail, symbols, m) ==
            if ts < 86_400_000_000_000 && locate < symbols && ref != 0 && 1 <= shares <= 1_000_000_000
            then Some(Tick(EXECUTED, ts, locate, ref, shares, 0, matchNum, FLAG_PRINTABLE))
            else None
  {
    Powers();
    ExecutedReads(ExecutedWire(locate, tracking, ts, ref, shares, matchNum) + tail, locate, tracking, ts, ref, shares,
      matchNum, tail);
  }

  function ExecutedPriceWire(locate: nat, tracking: nat, ts: nat, ref: nat, shares: nat, matchNum: nat, shown: byte,
      price: nat): (r: seq<byte>)
    ensures |r| == 36
  {
    Head(EXECUTED_PRICE, locate, tracking, ts) + Bytes(ref, 8) + Bytes(shares, 4) + Bytes(matchNum,
    8) + [shown] + Bytes(price, 4)
  }

  lemma ExecutedPriceReads(raw: seq<byte>, locate: nat, tracking: nat, ts: nat, ref: nat, shares: nat, matchNum: nat,
      shown: byte, price: nat, tail: seq<byte>)
    requires HeadFits(locate, tracking, ts) && Word(ref, 8) && Word(shares, 4) && Word(matchNum, 8) && Word(price, 4)
    requires raw == ExecutedPriceWire(locate, tracking, ts, ref, shares, matchNum, shown, price) + tail
    ensures |raw| >= 36 && raw[0] == EXECUTED_PRICE && Be16(raw, 1) == locate && Be48(raw, 5) == ts
    ensures Number(raw[11..19]) == ref && Number(raw[19..23]) == shares && Number(raw[23..31]) == matchNum &&
            raw[31] == shown && Number(raw[32..36]) == price
  {
    var h := Head(EXECUTED_PRICE, locate, tracking, ts);
    var p1 := h + Bytes(ref, 8);
    var p2 := p1 + Bytes(shares, 4);
    var p3 := p2 + Bytes(matchNum, 8);
    var p4 := p3 + [shown];
    Field(raw, p4, price, 4, tail);
    Regrouped(p4, Bytes(price, 4), tail);
    var z4 := Bytes(price, 4) + tail;
    Part(raw, p3, [shown], z4);
    Regrouped(p3, [shown], z4);
    var z3 := [shown] + z4;
    Field(raw, p2, matchNum, 8, z3);
    Regrouped(p2, Bytes(matchNum, 8), z3);
    var z2 := Bytes(matchNum, 8) + z3;
    Field(raw, p1, shares, 4, z2);
    Regrouped(p1, Bytes(shares, 4), z2);
    var z1 := Bytes(shares, 4) + z2;
    Field(raw, h, ref, 8, z1);
    Regrouped(h, Bytes(ref, 8), z1);
    HeadReads(raw, EXECUTED_PRICE, locate, tracking, ts, Bytes(ref, 8) + z1);
  }

  lemma ExecutedPriceDecodes(locate: nat, tracking: nat, ts: nat, ref: nat, shares: nat, matchNum: nat, shown: byte,
      price: nat, tail: seq<byte>, symbols: nat, m: map<Ticker, nat>)
    requires HeadFits(locate, tracking, ts) && Word(ref, 8) && Word(shares, 4) && Word(matchNum, 8) && Word(price, 4)
    requires forall k :: k in m ==> m[k] < NOT_FOUND
    ensures Decode(ExecutedPriceWire(locate, tracking, ts, ref, shares, matchNum, shown, price) + tail, symbols, m) ==
            if ts < 86_400_000_000_000 && locate < symbols && ref != 0 && 1 <= shares <= 1_000_000_000 && 1 <= price &&
            (shown == LETTER_Y || shown == LETTER_N)
            then Some(Tick(EXECUTED_PRICE, ts, locate, ref, shares, price, matchNum,
            if shown == LETTER_Y then FLAG_PRINTABLE else 0))
            else None
  {
    Powers();
    ExecutedPriceReads(ExecutedPriceWire(locate, tracking, ts, ref, shares, matchNum, shown, price) + tail, locate,
      tracking, ts, ref, shares, matchNum, shown, price, tail);
  }

  function CancelWire(locate: nat, tracking: nat, ts: nat, ref: nat, shares: nat): (r: seq<byte>)
    ensures |r| == 23
  {
    Head(CANCEL, locate, tracking, ts) + Bytes(ref, 8) + Bytes(shares, 4)
  }

  lemma CancelReads(raw: seq<byte>, locate: nat, tracking: nat, ts: nat, ref: nat, shares: nat, tail: seq<byte>)
    requires HeadFits(locate, tracking, ts) && Word(ref, 8) && Word(shares, 4)
    requires raw == CancelWire(locate, tracking, ts, ref, shares) + tail
    ensures |raw| >= 23 && raw[0] == CANCEL && Be16(raw, 1) == locate && Be48(raw, 5) == ts
    ensures Number(raw[11..19]) == ref && Number(raw[19..23]) == shares
  {
    var h := Head(CANCEL, locate, tracking, ts);
    var p1 := h + Bytes(ref, 8);
    Field(raw, p1, shares, 4, tail);
    Regrouped(p1, Bytes(shares, 4), tail);
    var z1 := Bytes(shares, 4) + tail;
    Field(raw, h, ref, 8, z1);
    Regrouped(h, Bytes(ref, 8), z1);
    HeadReads(raw, CANCEL, locate, tracking, ts, Bytes(ref, 8) + z1);
  }

  lemma CancelDecodes(locate: nat, tracking: nat, ts: nat, ref: nat, shares: nat, tail: seq<byte>, symbols: nat,
      m: map<Ticker, nat>)
    requires HeadFits(locate, tracking, ts) && Word(ref, 8) && Word(shares, 4)
    requires forall k :: k in m ==> m[k] < NOT_FOUND
    ensures Decode(CancelWire(locate, tracking, ts, ref, shares) + tail, symbols, m) ==
            if ts < 86_400_000_000_000 && locate < symbols && ref != 0 && 1 <= shares <= 1_000_000_000
            then Some(Tick(CANCEL, ts, locate, ref, shares, 0, 0, 0))
            else None
  {
    Powers();
    CancelReads(CancelWire(locate, tracking, ts, ref, shares) + tail, locate, tracking, ts, ref, shares, tail);
  }

  function DeleteWire(locate: nat, tracking: nat, ts: nat, ref: nat): (r: seq<byte>)
    ensures |r| == 19
  {
    Head(DELETE, locate, tracking, ts) + Bytes(ref, 8)
  }

  lemma DeleteReads(raw: seq<byte>, locate: nat, tracking: nat, ts: nat, ref: nat, tail: seq<byte>)
    requires HeadFits(locate, tracking, ts) && Word(ref, 8)
    requires raw == DeleteWire(locate, tracking, ts, ref) + tail
    ensures |raw| >= 19 && raw[0] == DELETE && Be16(raw, 1) == locate && Be48(raw, 5) == ts
    ensures Number(raw[11..19]) == ref
  {
    var h := Head(DELETE, locate, tracking, ts);
    Field(raw, h, ref, 8, tail);
    Regrouped(h, Bytes(ref, 8), tail);
    HeadReads(raw, DELETE, locate, tracking, ts, Bytes(ref, 8) + tail);
  }

  lemma DeleteDecodes(locate: nat, tracking: nat, ts: nat, ref: nat, tail: seq<byte>, symbols: nat, m: map<Ticker, nat>)
    requires HeadFits(locate, tracking, ts) && Word(ref, 8)
    requires forall k :: k in m ==> m[k] < NOT_FOUND
    ensures Decode(DeleteWire(locate, tracking, ts, ref) + tail, symbols, m) ==
            if ts < 86_400_000_000_000 && locate < symbols && ref != 0
            then Some(Tick(DELETE, ts, locate, ref, 0, 0, 0, 0))
            else None
  {
    Powers();
    DeleteReads(DeleteWire(locate, tracking, ts, ref) + tail, locate, tracking, ts, ref, tail);
  }

  function ReplaceWire(locate: nat, tracking: nat, ts: nat, ref: nat, newRef: nat, shares: nat,
      price: nat): (r: seq<byte>)
    ensures |r| == 35
  {
    Head(REPLACE, locate, tracking, ts) + Bytes(ref, 8) + Bytes(newRef, 8) + Bytes(shares, 4) + Bytes(price, 4)
  }

  lemma ReplaceReads(raw: seq<byte>, locate: nat, tracking: nat, ts: nat, ref: nat, newRef: nat, shares: nat,
      price: nat, tail: seq<byte>)
    requires HeadFits(locate, tracking, ts) && Word(ref, 8) && Word(newRef, 8) && Word(shares, 4) && Word(price, 4)
    requires raw == ReplaceWire(locate, tracking, ts, ref, newRef, shares, price) + tail
    ensures |raw| >= 35 && raw[0] == REPLACE && Be16(raw, 1) == locate && Be48(raw, 5) == ts
    ensures Number(raw[11..19]) == ref && Number(raw[19..27]) == newRef && Number(raw[27..31]) == shares &&
            Number(raw[31..35]) == price
  {
    var h := Head(REPLACE, locate, tracking, ts);
    var p1 := h + Bytes(ref, 8);
    var p2 := p1 + Bytes(newRef, 8);
    var p3 := p2 + Bytes(shares, 4);
    Field(raw, p3, price, 4, tail);
    Regrouped(p3, Bytes(price, 4), tail);
    var z3 := Bytes(price, 4) + tail;
    Field(raw, p2, shares, 4, z3);
    Regrouped(p2, Bytes(shares, 4), z3);
    var z2 := Bytes(shares, 4) + z3;
    Field(raw, p1, newRef, 8, z2);
    Regrouped(p1, Bytes(newRef, 8), z2);
    var z1 := Bytes(newRef, 8) + z2;
    Field(raw, h, ref, 8, z1);
    Regrouped(h, Bytes(ref, 8), z1);
    HeadReads(raw, REPLACE, locate, tracking, ts, Bytes(ref, 8) + z1);
  }

  lemma ReplaceDecodes(locate: nat, tracking: nat, ts: nat, ref: nat, newRef: nat, shares: nat, price: nat,
      tail: seq<byte>, symbols: nat, m: map<Ticker, nat>)
    requires HeadFits(locate, tracking, ts) && Word(ref, 8) && Word(newRef, 8) && Word(shares, 4) && Word(price, 4)
    requires forall k :: k in m ==> m[k] < NOT_FOUND
    ensures Decode(ReplaceWire(locate, tracking, ts, ref, newRef, shares, price) + tail, symbols, m) ==
            if ts < 86_400_000_000_000 && locate < symbols && ref != 0 && newRef != 0 && ref != newRef &&
            1 <= shares <= 1_000_000_000 && 1 <= price
            then Some(Tick(REPLACE, ts, locate, ref, shares, price, newRef, 0))
            else None
  {
    Powers();
    ReplaceReads(ReplaceWire(locate, tracking, ts, ref, newRef, shares, price) + tail, locate, tracking, ts, ref,
      newRef, shares, price, tail);
  }

  function TradeWire(locate: nat, tracking: nat, ts: nat, ref: nat, side: byte, shares: nat, stock: Ticker, price: nat,
      matchNum: nat): (r: seq<byte>)
    requires |stock| == 8
    ensures |r| == 44
  {
    Head(TRADE, locate, tracking, ts) + Bytes(ref, 8) + [side] + Bytes(shares, 4) + stock + Bytes(price,
    4) + Bytes(matchNum, 8)
  }

  lemma TradeReads(raw: seq<byte>, locate: nat, tracking: nat, ts: nat, ref: nat, side: byte, shares: nat,
      stock: Ticker, price: nat, matchNum: nat, tail: seq<byte>)
    requires HeadFits(locate, tracking, ts) && Word(ref, 8) && Word(shares, 4) && Word(price, 4) && Word(matchNum, 8) &&
             |stock| == 8
    requires raw == TradeWire(locate, tracking, ts, ref, side, shares, stock, price, matchNum) + tail
    ensures |raw| >= 44 && raw[0] == TRADE && Be16(raw, 1) == locate && Be48(raw, 5) == ts
    ensures Number(raw[11..19]) == ref && raw[19] == side && Number(raw[20..24]) == shares && raw[24..32] == stock &&
            Number(raw[32..36]) == price && Number(raw[36..44]) == matchNum
  {
    var h := Head(TRADE, locate, tracking, ts);
    var p1 := h + Bytes(ref, 8);
    var p2 := p1 + [side];
    var p3 := p2 + Bytes(shares, 4);
    var p4 := p3 + stock;
    var p5 := p4 + Bytes(price, 4);
    Field(raw, p5, matchNum, 8, tail);
    Regrouped(p5, Bytes(matchNum, 8), tail);
    var z5 := Bytes(matchNum, 8) + tail;
    Field(raw, p4, price, 4, z5);
    Regrouped(p4, Bytes(price, 4), z5);
    var z4 := Bytes(price, 4) + z5;
    Part(raw, p3, stock, z4);
    Regrouped(p3, stock, z4);
    var z3 := stock + z4;
    Field(raw, p2, shares, 4, z3);
    Regrouped(p2, Bytes(shares, 4), z3);
    var z2 := Bytes(shares, 4) + z3;
    Part(raw, p1, [side], z2);
    Regrouped(p1, [side], z2);
    var z1 := [side] + z2;
    Field(raw, h, ref, 8, z1);
    Regrouped(h, Bytes(ref, 8), z1);
    HeadReads(raw, TRADE, locate, tracking, ts, Bytes(ref, 8) + z1);
  }

  lemma TradeDecodes(locate: nat, tracking: nat, ts: nat, ref: nat, side: byte, shares: nat, stock: Ticker, price: nat,
      matchNum: nat, tail: seq<byte>, symbols: nat, m: map<Ticker, nat>)
    requires HeadFits(locate, tracking, ts) && Word(ref, 8) && Word(shares, 4) && Word(price, 4) && Word(matchNum, 8) &&
             |stock| == 8
    requires forall k :: k in m ==> m[k] < NOT_FOUND
    ensures Decode(TradeWire(locate, tracking, ts, ref, side, shares, stock, price, matchNum) + tail, symbols, m) ==
            if ts < 86_400_000_000_000 && stock in m && 1 <= shares <= 1_000_000_000 && 1 <= price &&
            (side == LETTER_B || side == LETTER_S)
            then Some(Tick(TRADE, ts, m[stock], ref, shares, price, matchNum,
            FLAG_PRINTABLE + if side == LETTER_B then FLAG_BUY else 0))
            else None
  {
    Powers();
    TradeReads(TradeWire(locate, tracking, ts, ref, side, shares, stock, price, matchNum) + tail, locate, tracking, ts,
      ref, side, shares, stock, price, matchNum, tail);
  }

  function CrossWire(locate: nat, tracking: nat, ts: nat, shares: nat, stock: Ticker, price: nat, matchNum: nat,
      kindOfCross: byte): (r: seq<byte>)
    requires |stock| == 8
    ensures |r| == 40
  {
    Head(CROSS, locate, tracking, ts) + Bytes(shares, 8) + stock + Bytes(price, 4) + Bytes(matchNum, 8) + [kindOfCross]
  }

  lemma CrossReads(raw: seq<byte>, locate: nat, tracking: nat, ts: nat, shares: nat, stock: Ticker, price: nat,
      matchNum: nat, kindOfCross: byte, tail: seq<byte>)
    requires HeadFits(locate, tracking, ts) && Word(shares, 8) && Word(price, 4) && Word(matchNum, 8) && |stock| == 8
    requires raw == CrossWire(locate, tracking, ts, shares, stock, price, matchNum, kindOfCross) + tail
    ensures |raw| >= 40 && raw[0] == CROSS && Be16(raw, 1) == locate && Be48(raw, 5) == ts
    ensures Number(raw[11..19]) == shares && raw[19..27] == stock && Number(raw[27..31]) == price &&
            Number(raw[31..39]) == matchNum && raw[39] == kindOfCross
  {
    var h := Head(CROSS, locate, tracking, ts);
    var p1 := h + Bytes(shares, 8);
    var p2 := p1 + stock;
    var p3 := p2 + Bytes(price, 4);
    var p4 := p3 + Bytes(matchNum, 8);
    Part(raw, p4, [kindOfCross], tail);
    Regrouped(p4, [kindOfCross], tail);
    var z4 := [kindOfCross] + tail;
    Field(raw, p3, matchNum, 8, z4);
    Regrouped(p3, Bytes(matchNum, 8), z4);
    var z3 := Bytes(matchNum, 8) + z4;
    Field(raw, p2, price, 4, z3);
    Regrouped(p2, Bytes(price, 4), z3);
    var z2 := Bytes(price, 4) + z3;
    Part(raw, p1, stock, z2);
    Regrouped(p1, stock, z2);
    var z1 := stock + z2;
    Field(raw, h, shares, 8, z1);
    Regrouped(h, Bytes(shares, 8), z1);
    HeadReads(raw, CROSS, locate, tracking, ts, Bytes(shares, 8) + z1);
  }

  lemma CrossDecodes(locate: nat, tracking: nat, ts: nat, shares: nat, stock: Ticker, price: nat, matchNum: nat,
      kindOfCross: byte, tail: seq<byte>, symbols: nat, m: map<Ticker, nat>)
    requires HeadFits(locate, tracking, ts) && Word(shares, 8) && Word(price, 4) && Word(matchNum, 8) && |stock| == 8
    requires forall k :: k in m ==> m[k] < NOT_FOUND
    ensures Decode(CrossWire(locate, tracking, ts, shares, stock, price, matchNum, kindOfCross) + tail, symbols, m) ==
            if ts < 86_400_000_000_000 && stock in m && shares <= 1_000_000_000 && 1 <= price
            then Some(Tick(CROSS, ts, m[stock], 0, shares, price, matchNum, FLAG_PRINTABLE + FLAG_CROSS))
            else None
  {
    Powers();
    CrossReads(CrossWire(locate, tracking, ts, shares, stock, price, matchNum, kindOfCross) + tail, locate, tracking,
      ts, shares, stock, price, matchNum, kindOfCross, tail);
  }

  function ActionWire(locate: nat, tracking: nat, ts: nat, stock: Ticker, state: byte, reason: nat): (r: seq<byte>)
    requires |stock| == 8
    ensures |r| == 25
  {
    Head(ACTION, locate, tracking, ts) + stock + [state] + Bytes(reason, 5)
  }

  lemma ActionReads(raw: seq<byte>, locate: nat, tracking: nat, ts: nat, stock: Ticker, state: byte, reason: nat,
      tail: seq<byte>)
    requires HeadFits(locate, tracking, ts) && Word(reason, 5) && |stock| == 8
    requires raw == ActionWire(locate, tracking, ts, stock, state, reason) + tail
    ensures |raw| >= 25 && raw[0] == ACTION && Be16(raw, 1) == locate && Be48(raw, 5) == ts
    ensures raw[11..19] == stock && raw[19] == state && Number(raw[20..25]) == reason
  {
    var h := Head(ACTION, locate, tracking, ts);
    var p1 := h + stock;
    var p2 := p1 + [state];
    Field(raw, p2, reason, 5, tail);
    Regrouped(p2, Bytes(reason, 5), tail);
    var z2 := Bytes(reason, 5) + tail;
    Part(raw, p1, [state], z2);
    Regrouped(p1, [state], z2);
    var z1 := [state] + z2;
    Part(raw, h, stock, z1);
    Regrouped(h, stock, z1);
    HeadReads(raw, ACTION, locate, tracking, ts, stock + z1);
  }

  lemma ActionDecodes(locate: nat, tracking: nat, ts: nat, stock: Ticker, state: byte, reason: nat, tail: seq<byte>,
      symbols: nat, m: map<Ticker, nat>)
    requires HeadFits(locate, tracking, ts) && Word(reason, 5) && |stock| == 8
    requires forall k :: k in m ==> m[k] < NOT_FOUND
    ensures Decode(ActionWire(locate, tracking, ts, stock, state, reason) + tail, symbols, m) ==
            if ts < 86_400_000_000_000 && stock in m
            then Some(Tick(ACTION, ts, m[stock], 0, 0, 0, 0,
            if state == LETTER_H || state == LETTER_P then FLAG_HALTED else 0))
            else None
  {
    Powers();
    ActionReads(ActionWire(locate, tracking, ts, stock, state, reason) + tail, locate, tracking, ts, stock, state,
      reason, tail);
  }

  function RegShoWire(locate: nat, tracking: nat, ts: nat, stock: Ticker, action: byte): (r: seq<byte>)
    requires |stock| == 8
    ensures |r| == 20
  {
    Head(REG_SHO, locate, tracking, ts) + stock + [action]
  }

  lemma RegShoReads(raw: seq<byte>, locate: nat, tracking: nat, ts: nat, stock: Ticker, action: byte, tail: seq<byte>)
    requires HeadFits(locate, tracking, ts) && |stock| == 8
    requires raw == RegShoWire(locate, tracking, ts, stock, action) + tail
    ensures |raw| >= 20 && raw[0] == REG_SHO && Be16(raw, 1) == locate && Be48(raw, 5) == ts
    ensures raw[11..19] == stock && raw[19] == action
  {
    var h := Head(REG_SHO, locate, tracking, ts);
    var p1 := h + stock;
    Part(raw, p1, [action], tail);
    Regrouped(p1, [action], tail);
    var z1 := [action] + tail;
    Part(raw, h, stock, z1);
    Regrouped(h, stock, z1);
    HeadReads(raw, REG_SHO, locate, tracking, ts, stock + z1);
  }

  lemma RegShoDecodes(locate: nat, tracking: nat, ts: nat, stock: Ticker, action: byte, tail: seq<byte>, symbols: nat,
      m: map<Ticker, nat>)
    requires HeadFits(locate, tracking, ts) && |stock| == 8
    requires forall k :: k in m ==> m[k] < NOT_FOUND
    ensures Decode(RegShoWire(locate, tracking, ts, stock, action) + tail, symbols, m) ==
            if ts < 86_400_000_000_000 && stock in m
            then Some(Tick(REG_SHO, ts, m[stock], 0, 0, 0, 0,
              if action == DIGIT_0 + 1 || action == DIGIT_0 + 2 then FLAG_RESTRICTED else 0))
            else None
  {
    Powers();
    RegShoReads(RegShoWire(locate, tracking, ts, stock, action) + tail, locate, tracking, ts, stock, action, tail);
  }

  /** A message shorter than its type demands, or of another type, is refused. */
  lemma OthersRefused(raw: seq<byte>, symbols: nat, m: map<Ticker, nat>)
    requires forall k :: k in m ==> m[k] < NOT_FOUND
    ensures |raw| < 11 ==> Decode(raw, symbols, m) == None
    ensures |raw| > 0 && raw[0] == 'A' as int && |raw| < 36 ==> Decode(raw, symbols, m) == None
    ensures |raw| > 0 && raw[0] == 'F' as int && |raw| < 40 ==> Decode(raw, symbols, m) == None
    ensures |raw| > 0 && raw[0] == 'E' as int && |raw| < 31 ==> Decode(raw, symbols, m) == None
    ensures |raw| > 0 && raw[0] == 'C' as int && |raw| < 36 ==> Decode(raw, symbols, m) == None
    ensures |raw| > 0 && raw[0] == 'X' as int && |raw| < 23 ==> Decode(raw, symbols, m) == None
    ensures |raw| > 0 && raw[0] == 'D' as int && |raw| < 19 ==> Decode(raw, symbols, m) == None
    ensures |raw| > 0 && raw[0] == 'U' as int && |raw| < 35 ==> Decode(raw, symbols, m) == None
    ensures |raw| > 0 && raw[0] == 'P' as int && |raw| < 44 ==> Decode(raw, symbols, m) == None
    ensures |raw| > 0 && raw[0] == 'Q' as int && |raw| < 40 ==> Decode(raw, symbols, m) == None
    ensures |raw| > 0 && raw[0] == 'H' as int && |raw| < 25 ==> Decode(raw, symbols, m) == None
    ensures |raw| > 0 && raw[0] == 'Y' as int && |raw| < 20 ==> Decode(raw, symbols, m) == None
    ensures (|raw| > 0 && raw[0] != 'A' as int && raw[0] != 'F' as int && raw[0] != 'E' as int &&
             raw[0] != 'C' as int && raw[0] != 'X' as int && raw[0] != 'D' as int && raw[0] != 'U' as int &&
             raw[0] != 'P' as int && raw[0] != 'Q' as int && raw[0] != 'H' as int && raw[0] != 'Y' as int) ==>
              Decode(raw, symbols, m) == None
  {
    Letters();
  }

  // ----- The messages of the synthetic feed -----

  function AddMessage(ts: nat, sym: nat, ref: nat, buy: bool, shares: nat, price: nat): (r: seq<byte>)
    ensures |r| == 36
  {
    AddWire(ADD, sym, 0, ts, ref, if buy then LETTER_B else LETTER_S, shares, Stock(sym), price)
  }

  function ExecutedMessage(ts: nat, sym: nat, ref: nat, shares: nat, matchNum: nat): (r: seq<byte>)
    ensures |r| == 31
  {
    ExecutedWire(sym, 0, ts, ref, shares, matchNum)
  }

  function CancelMessage(ts: nat, sym: nat, ref: nat, shares: nat): (r: seq<byte>)
    ensures |r| == 23
  {
    CancelWire(sym, 0, ts, ref, shares)
  }

  function DeleteMessage(ts: nat, sym: nat, ref: nat): (r: seq<byte>)
    ensures |r| == 19
  {
    DeleteWire(sym, 0, ts, ref)
  }

  predicate Fits(ts: nat, sym: nat, symbols: nat, ref: nat) {
    ts < DAY && sym < symbols <= NOT_FOUND && 0 < ref < 0x1_0000_0000_0000_0000
  }

  /** A ticker map that knows the symbol. */
  predicate Knows(m: map<Ticker, nat>, sym: nat) {
    (forall k :: k in m ==> m[k] < NOT_FOUND) && Stock(sym) in m && m[Stock(sym)] == sym
  }

  lemma AddRoundTrip(ts: nat, sym: nat, symbols: nat, ref: nat, buy: bool, shares: nat, price: nat, m: map<Ticker, nat>)
    requires Fits(ts, sym, symbols, ref) && Knows(m, sym) && IsQuantity(shares) && IsPrice(price)
    ensures Decode(AddMessage(ts, sym, ref, buy, shares, price), symbols, m) ==
            Some(Tick(ADD, ts, sym, ref, shares, price, 0, if buy then FLAG_BUY else 0))
  {
    Powers();
    AddDecodes(ADD, sym, 0, ts, ref, if buy then LETTER_B else LETTER_S, shares, Stock(sym), price, [], symbols, m);
    assert AddMessage(ts, sym, ref, buy, shares, price) + [] == AddMessage(ts, sym, ref, buy, shares, price);
  }

  lemma ExecutedRoundTrip(ts: nat, sym: nat, symbols: nat, ref: nat, shares: nat, matchNum: nat, m: map<Ticker, nat>)
    requires Fits(ts, sym, symbols, ref) && Knows(m, sym) && IsQuantity(shares) && matchNum < 0x1_0000_0000_0000_0000
    ensures Decode(ExecutedMessage(ts, sym, ref, shares, matchNum), symbols, m) ==
            Some(Tick(EXECUTED, ts, sym, ref, shares, 0, matchNum, FLAG_PRINTABLE))
  {
    Powers();
    ExecutedDecodes(sym, 0, ts, ref, shares, matchNum, [], symbols, m);
    assert ExecutedMessage(ts, sym, ref, shares, matchNum) + [] == ExecutedMessage(ts, sym, ref, shares, matchNum);
  }

  lemma CancelRoundTrip(ts: nat, sym: nat, symbols: nat, ref: nat, shares: nat, m: map<Ticker, nat>)
    requires Fits(ts, sym, symbols, ref) && Knows(m, sym) && IsQuantity(shares)
    ensures Decode(CancelMessage(ts, sym, ref, shares), symbols, m) == Some(Tick(CANCEL, ts, sym, ref, shares, 0, 0, 0))
  {
    Powers();
    CancelDecodes(sym, 0, ts, ref, shares, [], symbols, m);
    assert CancelMessage(ts, sym, ref, shares) + [] == CancelMessage(ts, sym, ref, shares);
  }

  lemma DeleteRoundTrip(ts: nat, sym: nat, symbols: nat, ref: nat, m: map<Ticker, nat>)
    requires Fits(ts, sym, symbols, ref) && Knows(m, sym)
    ensures Decode(DeleteMessage(ts, sym, ref), symbols, m) == Some(Tick(DELETE, ts, sym, ref, 0, 0, 0, 0))
  {
    Powers();
    DeleteDecodes(sym, 0, ts, ref, [], symbols, m);
    assert DeleteMessage(ts, sym, ref) + [] == DeleteMessage(ts, sym, ref);
  }

  // ----- The generators -----

  method WriteHeader(dst: array<byte>, kind: byte, locate: nat, ts: nat)
    requires dst.Length >= 11
    modifies dst
    ensures dst[..11] == Head(kind, locate, 0, ts)
  {
    dst[0] := kind;
    assert dst[..1] == [kind];
    PutU16(dst, 1, locate);
    PutU16(dst, 3, 0);
    PutU48(dst, 5, ts);
  }

  method GenAddOrder(dst: array<byte>, ts: nat, ref: nat, sym: nat, buy: bool, shares: nat, price: nat)
      returns (len: nat)
    requires dst.Length >= 36
    modifies dst
    ensures len == 36 && dst[..len] == AddMessage(ts, sym, ref, buy, shares, price)
  {
    WriteHeader(dst, ADD, sym, ts);
    PutU64(dst, 11, ref);
    ghost var so := dst[..19];
    dst[19] := if buy then LETTER_B else LETTER_S;
    assert dst[..20] == so + [if buy then LETTER_B else LETTER_S];
    PutU32(dst, 20, shares);
    var stock := FormatStock(sym);
    CopyIn(dst, 24, stock);
    PutU32(dst, 32, price);
    return 36;
  }

  method CopyIn(dst: array<byte>, at: nat, bytes: seq<byte>)
    requires at + |bytes| <= dst.Length
    modifies dst
    ensures dst[..at + |bytes|] == old(dst[..at]) + bytes
  {
    var i := 0;
    while i < |bytes|
      invariant i <= |bytes| && dst[..at + i] == old(dst[..at]) + bytes[..i]
    {
      ghost var so := dst[..at + i];
      dst[at + i] := bytes[i];
      assert dst[..at + i + 1] == so + [bytes[i]];
      i := i + 1;
    }
    assert bytes[..i] == bytes;
  }

  method GenOrderExecuted(dst: array<byte>, ts: nat, ref: nat, sym: nat, shares: nat, matchNum: nat) returns (len: nat)
    requires dst.Length >= 31
    modifies dst
    ensures len == 31 && dst[..len] == ExecutedMessage(ts, sym, ref, shares, matchNum)
  {
    WriteHeader(dst, EXECUTED, sym, ts);
    PutU64(dst, 11, ref);
    PutU32(dst, 19, shares);
    PutU64(dst, 23, matchNum);
    return 31;
  }

  method GenOrderCancel(dst: array<byte>, ts: nat, ref: nat, sym: nat, shares: nat) returns (len: nat)
    requires dst.Length >= 23
    modifies dst
    ensures len == 23 && dst[..len] == CancelMessage(ts, sym, ref, shares)
  {
    WriteHeader(dst, CANCEL, sym, ts);
    PutU64(dst, 11, ref);
    PutU32(dst, 19, shares);
    return 23;
  }

  method GenOrderDelete(dst: array<byte>, ts: nat, ref: nat, sym: nat) returns (len: nat)
    requires dst.Length >= 19
    modifies dst
    ensures len == 19 && dst[..len] == DeleteMessage(ts, sym, ref)
  {
    WriteHeader(dst, DELETE, sym, ts);
    PutU64(dst, 11, ref);
    return 19;
  }
}
