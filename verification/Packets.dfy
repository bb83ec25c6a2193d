/** Cutting the ciphertext into packets, announcing how many there are, and putting it together again. */
module Packets {
  import opened Bytes
  import opened Options

  /** CHANGING_SIZE_IN_PACKET, the bytes of ciphertext in a packet, and FIXED_SIZE_IN_PACKET, the rest of it. */
  const C: nat := 65269
  const FIXED: nat := 267
  const INT_MAX: nat := 0x7fff_ffff

  // ---------- How many packets ----------

  /** The number of packets the client sends. */
  function PacketCount(n: nat): nat {
    (n + C - 1) / C
  }

  /** The number of packets the client announces. */
  function AnnouncedTotal(n: nat): nat {
    n / (C + 1) + 1
  }

  /** The bytes of ciphertext in the last packet. */
  function LastSize(n: nat): (r: nat)
    requires n > 0
    ensures 1 <= r <= C
  {
    n - (PacketCount(n) - 1) * C
  }

  /** The announced total is never too large, and right exactly when the last packet is full enough. */
  lemma AnnouncedTotalIff(n: nat)
    requires n > 0
    ensures 1 <= AnnouncedTotal(n) <= PacketCount(n)
    ensures AnnouncedTotal(n) == PacketCount(n) <==> LastSize(n) >= PacketCount(n) - 1
  {
    var a, q := n / (C + 1), PacketCount(n);
    assert n == (q - 1) * C + LastSize(n);
    assert a * (C + 1) <= n < (a + 1) * (C + 1);
  }

  /** Where the announced total is wrong it is short by one; by two from 2^31 bytes on. */
  lemma Shortfall(n: nat)
    requires 0 < n <= 65535 * C
    ensures PacketCount(n) - AnnouncedTotal(n) <= if n < 0x8000_0000 then 1 else 2
  {
    var a, q := n / (C + 1), PacketCount(n);
    assert n == (q - 1) * C + LastSize(n);
    assert a * (C + 1) <= n < (a + 1) * (C + 1);
  }

  /** The smallest ciphertext that is announced wrongly. */
  lemma SmallestWrongTotal(n: nat)
    requires 0 < n && n % 16 == 0
    ensures n <= 195792 ==> AnnouncedTotal(n) == PacketCount(n)
    ensures AnnouncedTotal(195808) == 3 && PacketCount(195808) == 4 && 195808 == 195792 + 16
  {
    AnnouncedTotalIff(n);
  }

  // ---------- The guards of sendFile ----------

  function ToInt32(x: int): int {
    (x + INT_MAX + 1) % UINT32_SIZE - INT_MAX - 1
  }

  /** What sendFile passes on, or None when one of its two guards returns: after is cut to 32 bits,
      and the number of packets goes through an int before it is cut to 16. */
  function Announce(n: nat): Option<(Uint32, Uint16)> {
    var after, num := n % UINT32_SIZE, ToInt32(AnnouncedTotal(n));
    if after > 4277403915 then None
    else if num > 65535 then None
    else Some((after, num % 0x1_0000))
  }

  /** Together the guards accept exactly what 65535 packets can hold, and then nothing was cut off.
      The bound is sharp: the int wraps at the next ciphertext. */
  lemma GuardsIff(n: nat)
    requires 0 < n < 0x8000_0000 * (C + 1)
    ensures Announce(n).Some? <==> n <= 65535 * C
    ensures Announce(n).Some? ==> Announce(n) == Some((n, AnnouncedTotal(n))) && PacketCount(n) <= 65535
  {
    var a := n / (C + 1);
    assert a < 0x8000_0000;
    if a == 0x7fff_ffff {
      assert 0x7fff_ffff * (C + 1) <= n;
      assert n % UINT32_SIZE == n - (C + 1) / 2 * UINT32_SIZE + UINT32_SIZE;
    }
  }

  lemma GuardsBoundIsSharp()
    ensures var n := 0x8000_0000 * (C + 1); Announce(n) == Some((0, 1)) && n > 65535 * C
  {
    var n := 0x8000_0000 * (C + 1);
    assert n == UINT32_SIZE * 32635;
    assert AnnouncedTotal(n) == 0x8000_0001;
  }

  /** At 2^32 bytes the 32-bit size is 0 and passes the first guard; the second one stops it. */
  lemma SecondGuardIsNeeded()
    ensures UINT32_SIZE % UINT32_SIZE == 0 && Announce(UINT32_SIZE) == None
  {
    assert AnnouncedTotal(UINT32_SIZE) == 65804;
  }

  // ---------- Splitting and reassembly ----------

  /** The payload of a file packet, as FilePacket lays it out and struct.unpack reads it. */
  datatype Packet = Packet(after: Uint32, before: Uint32, current: Uint16, total: Uint16,
                           path: seq<Byte>, message: seq<Byte>)

  /** What is the same in all packets of one transmission. */
  datatype Meta = Meta(after: Uint32, before: Uint32, total: Uint16, path: seq<Byte>)

  function Chunk(ct: seq<Byte>, k: nat): (chunk: seq<Byte>)
    requires k * C < |ct|
    ensures 1 <= |chunk| <= C
  {
    if k * C + C <= |ct| then ct[k * C..k * C + C] else ct[k * C..]
  }

  function PacketAt(ct: seq<Byte>, k: nat, m: Meta): (p: Packet)
    requires k * C < |ct| && k < 0xffff
    ensures |p.message| == C
  {
    Packet(m.after, m.before, k + 1, m.total, m.path, Field(Chunk(ct, k), C))
  }

  /** The packets that carry the ciphertext from chunk k on. */
  function PacketsFrom(ct: seq<Byte>, k: nat, m: Meta): seq<Packet>
    requires |ct| < 0x8000_0000
    decreases |ct| - k * C
  {
    if k * C >= |ct| then [] else [PacketAt(ct, k, m)] + PacketsFrom(ct, k + 1, m)
  }

  /** The part of the last packet that is ciphertext, as the server computes it. */
  function LastPart(p: Packet): seq<Byte>
    requires |p.message| > 0
  {
    if p.after % |p.message| != 0 then p.message[..p.after % |p.message|] else p.message
  }

  /** The inner loop of get_file: what is put together, and the packets that are not read. */
  function Assemble(ps: seq<Packet>, whole: seq<Byte>): Option<(seq<Byte>, seq<Packet>)>
    requires forall p :: p in ps ==> |p.message| > 0
  {
    if |ps| == 0 then None
    else if ps[0].current == ps[0].total then Some((whole + LastPart(ps[0]), ps[1..]))
    else Assemble(ps[1..], whole + ps[0].message)
  }

  lemma {:induction false} PacketsFromLength(ct: seq<Byte>, k: nat, m: Meta)
    requires |ct| < 0x8000_0000
    ensures |PacketsFrom(ct, k, m)| == if k <= PacketCount(|ct|) then PacketCount(|ct|) - k else 0
    ensures forall p :: p in PacketsFrom(ct, k, m) ==> |p.message| == C
    decreases |ct| - k * C
  {
    if k * C >= |ct| {
    } else {
      PacketsFromLength(ct, k + 1, m);
    }
  }

  /** One transmission read by the server. With a total of t it stops after t packets, having put
      together a prefix of the ciphertext; with a total of 0 or too large a one it never stops. */
  lemma {:induction false} AssembleFrom(ct: seq<Byte>, k: nat, m: Meta)
    requires 0 < |ct| < 0x8000_0000 && m.after == |ct| && k * C <= |ct|
    ensures forall p :: p in PacketsFrom(ct, k, m) ==> |p.message| > 0
    ensures var q, t := PacketCount(|ct|), m.total;
            Assemble(PacketsFrom(ct, k, m), ct[..k * C]) ==
            if k < t <= q then Some((ct[..|ct| - (q - t) * C], PacketsFrom(ct, t, m))) else None
    decreases |ct| - k * C
  {
    hide Chunk, PacketAt, LastPart;
    PacketsFromLength(ct, k, m);
    CountAt(|ct|, k);
    if k * C < |ct| {
      var ps := PacketsFrom(ct, k, m);
      PacketFields(ct, k, m);
      assert ps[0] == PacketAt(ct, k, m) && ps[1..] == PacketsFrom(ct, k + 1, m);
      if k + 1 == m.total {
        LastPartIsPrefix(ct, k, m);
      } else if k * C + C <= |ct| {
        FullChunk(ct, k, m);
        AssembleFrom(ct, k + 1, m);
      }
    }
  }

  lemma PacketFields(ct: seq<Byte>, k: nat, m: Meta)
    requires k * C < |ct| && k < 0xffff
    ensures PacketAt(ct, k, m).current == k + 1 && PacketAt(ct, k, m).total == m.total
  {
  }

  lemma CountAt(n: nat, k: nat)
    requires 0 < n && k * C <= n
    ensures k * C < n <==> k < PacketCount(n)
    ensures k * C + C > n ==> PacketCount(n) <= k + 1
  {
    assert n == (PacketCount(n) - 1) * C + LastSize(n);
  }

  lemma FullChunk(ct: seq<Byte>, k: nat, m: Meta)
    requires k * C + C <= |ct| < 0x8000_0000
    ensures ct[..k * C] + PacketAt(ct, k, m).message == ct[..(k + 1) * C]
  {
    assert PacketAt(ct, k, m).message == ct[k * C..k * C + C];
  }

  lemma LastPartIsPrefix(ct: seq<Byte>, k: nat, m: Meta)
    requires 0 < |ct| < 0x8000_0000 && m.after == |ct| && k * C < |ct|
    ensures ct[..k * C] + LastPart(PacketAt(ct, k, m)) == ct[..|ct| - (PacketCount(|ct|) - k - 1) * C]
  {
    var n, q, r := |ct|, PacketCount(|ct|), LastSize(|ct|);
    LastSizeIsRemainder(n);
    var p, chunk := PacketAt(ct, k, m), Chunk(ct, k);
    assert k * C + r <= n && k * C + r == n - (q - k - 1) * C;
    assert r <= |chunk| && p.message[..r] == chunk[..r] == ct[k * C..k * C + r];
    assert r == C ==> p.message == p.message[..r];
  }

  lemma LastSizeIsRemainder(n: nat)
    requires n > 0
    ensures LastSize(n) == if n % C == 0 then C else n % C
  {
    assert n == (PacketCount(n) - 1) * C + LastSize(n);
  }

  /** Reassembly is the inverse of splitting exactly when the announced total is the packet count. */
  lemma ReassemblyIff(ct: seq<Byte>, m: Meta)
    requires 0 < |ct| < 0x8000_0000 && m.after == |ct|
    ensures forall p :: p in PacketsFrom(ct, 0, m) ==> |p.message| > 0
    ensures Assemble(PacketsFrom(ct, 0, m), []) == Some((ct, [])) <==> m.total == PacketCount(|ct|)
  {
    AssembleFrom(ct, 0, m);
    assert ct[..0] == [];
    var q := PacketCount(|ct|);
    PacketsFromLength(ct, q, m);
    if m.total == q { assert ct[..|ct|] == ct; }
  }

  /** What too small a total leaves: the missing packets stay unread, and no multiple of 16 bytes
      was put together, so the decryption refuses it. */
  lemma ShortTotal(ct: seq<Byte>, m: Meta, missing: nat)
    requires 0 < |ct| < 0x8000_0000 && m.after == |ct| && |ct| % 16 == 0
    requires m.total >= 1 && 1 <= missing <= 15 && m.total + missing == PacketCount(|ct|)
    ensures forall p :: p in PacketsFrom(ct, 0, m) ==> |p.message| > 0
    ensures var r := Assemble(PacketsFrom(ct, 0, m), []);
            r.Some? && |r.value.0| == |ct| - missing * C && |r.value.0| % 16 != 0 && |r.value.1| == missing
  {
    AssembleFrom(ct, 0, m);
    assert ct[..0] == [];
    PacketsFromLength(ct, m.total, m);
    ShortLength(|ct|, missing);
  }

  lemma ShortLength(n: nat, missing: nat)
    requires n % 16 == 0 && 1 <= missing <= 15 && missing * C <= n
    ensures (n - missing * C) % 16 != 0
  {
    var d := n / 16 - 4079 * missing;
    assert n - missing * C == 16 * d - 5 * missing;
    assert (5 * missing) % 16 != 0;
  }
}
