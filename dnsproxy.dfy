/**
 * The packet helpers of the XDP DNS proxy (bpf/ecnet_dnsproxy.c, bpf/headers/maps.h).
 * A packet is the byte sequence between data and data_end, so data_end is its length.
 * Multi-byte loads and stores use the host byte order, taken here to be little-endian
 * (x86-64, arm64); bpf_htons turns a loaded wire value into its big-endian number.
 */
module DnsProxy {
  import opened Bytes

  const MaxDnsNameLength := 256
  const MaxUdpSize := 1480
  const EthAlen := 6
  const ARecordType := 0x0001
  const DnsClassIn := 0x0001
  const QueryPointer := 0xc00c
  /** sizeof(struct dns_response): packed, 2 + 2 + 2 + 4 + 2 bytes. */
  const DnsResponseSize := 12
  /** sizeof(struct in_addr). */
  const InAddrSize := 4
  /** sizeof(struct dnshdr). */
  const DnsHeaderSize := 12

  /** A 16-bit load in host (little-endian) order. */
  function LeWord(s: seq<Byte>, i: nat): U16
    requires i + 2 <= |s|
  {
    s[i] as int + 256 * (s[i + 1] as int)
  }

  /** A 16-bit wire field read with bpf_htons: its big-endian value. */
  function BeWord(s: seq<Byte>, i: nat): U16
    requires i + 2 <= |s|
  {
    256 * (s[i] as int) + s[i + 1] as int
  }

  function Zeros(n: nat): (z: seq<Byte>)
    ensures |z| == n && forall k :: 0 <= k < n ==> z[k] == 0
  {
    seq(n, _ => 0)
  }

  // ---------------------------------------------------------------------------
  // swap_src_dst_mac, swap_src_dst_udp
  // ---------------------------------------------------------------------------

  /** s with the n bytes at i and the n bytes at j exchanged (the ranges do not overlap). */
  function SwapRanges(s: seq<Byte>, i: nat, j: nat, n: nat): (r: seq<Byte>)
    requires i + n <= j && j + n <= |s|
    ensures |r| == |s|
    ensures r[i..i + n] == s[j..j + n] && r[j..j + n] == s[i..i + n]
    ensures forall k :: 0 <= k < |s| && !(i <= k < i + n) && !(j <= k < j + n) ==> r[k] == s[k]
  {
    s[..i] + s[j..j + n] + s[i + n..j] + s[i..i + n] + s[j + n..]
  }

  /** Swapping twice restores the packet. */
  lemma SwapRangesInvolution(s: seq<Byte>, i: nat, j: nat, n: nat)
    requires i + n <= j && j + n <= |s|
    ensures SwapRanges(SwapRanges(s, i, j, n), i, j, n) == s
  {
    var r := SwapRanges(SwapRanges(s, i, j, n), i, j, n);
    forall k | 0 <= k < |s|
      ensures r[k] == s[k]
    {
      if i <= k < i + n {
        assert r[k] == r[i..i + n][k - i] && s[k] == s[i..i + n][k - i];
      } else if j <= k < j + n {
        assert r[k] == r[j..j + n][k - j] && s[k] == s[j..j + n][k - j];
      }
    }
  }

  /** struct ethhdr begins at eth: h_dest is bytes 0..6, h_source bytes 6..12. */
  method SwapSrcDstMac(pkt: array<Byte>, eth: nat)
    requires eth + 2 * EthAlen <= pkt.Length
    modifies pkt
    ensures pkt[..] == SwapRanges(old(pkt[..]), eth, eth + EthAlen, EthAlen)
  {
    var tmp := pkt[eth + EthAlen..eth + 2 * EthAlen];
    forall k | 0 <= k < EthAlen {
      pkt[eth + EthAlen + k] := pkt[eth + k];
    }
    forall k | 0 <= k < EthAlen {
      pkt[eth + k] := tmp[k];
    }
  }

  /** struct udphdr begins at udp: source is bytes 0..2, dest bytes 2..4. */
  method SwapSrcDstUdp(pkt: array<Byte>, udp: nat)
    requires udp + 4 <= pkt.Length
    modifies pkt
    ensures pkt[..] == SwapRanges(old(pkt[..]), udp, udp + 2, 2)
  {
    var tmp0, tmp1 := pkt[udp], pkt[udp + 1];
    pkt[udp], pkt[udp + 1] := pkt[udp + 2], pkt[udp + 3];
    pkt[udp + 2], pkt[udp + 3] := tmp0, tmp1;
  }

  // ---------------------------------------------------------------------------
  // cal_udp_csum, csum_fold_helper
  // ---------------------------------------------------------------------------

  /** The sum of k host-order words starting at off. */
  function WordsSum(s: seq<Byte>, off: nat, k: nat): (sum: nat)
    requires off + 2 * k <= |s|
    ensures sum <= 0xFFFF * k
  {
    if k == 0 then 0 else WordsSum(s, off, k - 1) + LeWord(s, off + 2 * (k - 1))
  }

  /**
   * Pseudo-header part of the sum: the two halves of saddr (iphdr bytes 12..16) and of
   * daddr (bytes 16..20), the protocol (byte 9) shifted left by 8, and udph->len (udphdr
   * bytes 4..6).
   */
  function PseudoHeaderSum(pkt: seq<Byte>, ip: nat, udp: nat): nat
    requires ip + 20 <= |pkt| && udp + 8 <= |pkt|
  {
    LeWord(pkt, ip + 12) + LeWord(pkt, ip + 14) + LeWord(pkt, ip + 16) + LeWord(pkt, ip + 18)
    + (pkt[ip + 9] as int) * 256 + LeWord(pkt, udp + 4)
  }

  /** How many whole words of the UDP header and payload the loop reads: at most 1480 / 2. */
  function WordsRead(pkt: seq<Byte>, udp: nat): (n: nat)
    requires udp <= |pkt|
    ensures n <= MaxUdpSize / 2 && udp + 2 * n <= |pkt|
    ensures n < MaxUdpSize / 2 ==> udp + 2 * n + 2 > |pkt|
  {
    if (|pkt| - udp) / 2 < MaxUdpSize / 2 then (|pkt| - udp) / 2 else MaxUdpSize / 2
  }

  /** The 32-bit accumulator of cal_udp_csum once the loop and the odd trailing byte are added. */
  function UdpSum(pkt: seq<Byte>, ip: nat, udp: nat): nat
    requires ip + 20 <= |pkt| && udp + 8 <= |pkt|
  {
    var n := WordsRead(pkt, udp);
    PseudoHeaderSum(pkt, ip, udp) + WordsSum(pkt, udp, n)
    + (if udp + 2 * n + 1 <= |pkt| then pkt[udp + 2 * n] as int else 0)
  }

  /** The accumulator never wraps: it stays far below 2^32. */
  lemma UdpSumFits(pkt: seq<Byte>, ip: nat, udp: nat)
    requires ip + 20 <= |pkt| && udp + 8 <= |pkt|
    ensures UdpSum(pkt, ip, udp) < 0x1_0000_0000
  {
  }

  /** Addition on the __u32 accumulator. */
  function AddU32(a: U32, b: nat): (r: U32)
    ensures a + b < 0x1_0000_0000 ==> r == a + b
  {
    (a + b) % 0x1_0000_0000
  }

  /** The summing part of cal_udp_csum, with the 32-bit accumulator of the C code. */
  method UdpChecksumAccumulate(pkt: seq<Byte>, ip: nat, udp: nat) returns (csumBuffer: U32)
    requires ip + 20 <= |pkt| && udp + 8 <= |pkt|
    ensures csumBuffer == UdpSum(pkt, ip, udp)
  {
    csumBuffer := 0;
    csumBuffer := AddU32(csumBuffer, LeWord(pkt, ip + 12));
    csumBuffer := AddU32(csumBuffer, LeWord(pkt, ip + 14));
    csumBuffer := AddU32(csumBuffer, LeWord(pkt, ip + 16));
    csumBuffer := AddU32(csumBuffer, LeWord(pkt, ip + 18));
    csumBuffer := AddU32(csumBuffer, (pkt[ip + 9] as int) * 256);
    csumBuffer := AddU32(csumBuffer, LeWord(pkt, udp + 4));
    ghost var pseudo := csumBuffer;
    assert pseudo == PseudoHeaderSum(pkt, ip, udp);
    var buf := udp;
    var i := 0;
    while i < MaxUdpSize
      invariant i % 2 == 0 && i <= MaxUdpSize
      invariant buf == udp + i && buf <= |pkt|
      invariant csumBuffer == pseudo + WordsSum(pkt, udp, i / 2)
      invariant pseudo <= 6 * 0xFFFF && WordsSum(pkt, udp, i / 2) <= 0xFFFF * (i / 2)
    {
      if buf + 2 > |pkt| {
        break;
      }
      assert (i + 2) / 2 == i / 2 + 1 && buf == udp + 2 * (i / 2);
      assert WordsSum(pkt, udp, i / 2 + 1) == WordsSum(pkt, udp, i / 2) + LeWord(pkt, buf);
      assert csumBuffer + LeWord(pkt, buf) < 0x1_0000_0000;
      csumBuffer := AddU32(csumBuffer, LeWord(pkt, buf));
      buf := buf + 2;
      i := i + 2;
    }
    assert i / 2 == WordsRead(pkt, udp);
    if buf + 1 <= |pkt| {
      csumBuffer := AddU32(csumBuffer, pkt[buf] as int);
    }
  }

  /** The end of cal_udp_csum: low half plus high half, truncated to 16 bits. */
  function FoldOnce(c: nat): U16 {
    (c % 0x1_0000 + c / 0x1_0000) % 0x1_0000
  }

  /** The checksum cal_udp_csum returns: the complement of FoldOnce. */
  function UdpChecksumAsWritten(pkt: seq<Byte>, ip: nat, udp: nat): U16
    requires ip + 20 <= |pkt| && udp + 8 <= |pkt|
  {
    0xFFFF - FoldOnce(UdpSum(pkt, ip, udp))
  }

  /** cal_udp_csum as written. */
  method CalUdpCsum(pkt: seq<Byte>, ip: nat, udp: nat) returns (csum: U16)
    requires ip + 20 <= |pkt| && udp + 8 <= |pkt|
    ensures csum == UdpChecksumAsWritten(pkt, ip, udp)
  {
    var csumBuffer := UdpChecksumAccumulate(pkt, ip, udp);
    csum := (csumBuffer % 0x1_0000 + csumBuffer / 0x1_0000) % 0x1_0000;
    csum := 0xFFFF - csum;
  }

  /** Ones'-complement folding to 16 bits: add the carries back until nothing is left above bit 15. */
  function OnesFold(c: nat): (f: U16)
    decreases c
  {
    if c < 0x1_0000 then c else OnesFold(c % 0x1_0000 + c / 0x1_0000)
  }

  /** Folding keeps the value modulo 2^16 - 1 and a non-zero sum folds to a non-zero value. */
  lemma {:induction false} OnesFoldCongruent(c: nat)
    ensures OnesFold(c) % 0xFFFF == c % 0xFFFF
    ensures c > 0 ==> OnesFold(c) > 0
    decreases c
  {
    if c >= 0x1_0000 {
      var q, r := c / 0x1_0000, c % 0x1_0000;
      assert c == 0xFFFF * q + (q + r);
      AddMultipleMod(q + r, q);
      OnesFoldCongruent(r + q);
    }
  }

  /** Adding a multiple of 2^16 - 1 does not change the residue modulo 2^16 - 1. */
  lemma AddMultipleMod(a: nat, k: nat)
    ensures (0xFFFF * k + a) % 0xFFFF == a % 0xFFFF
  {
    var m := a / 0xFFFF;
    assert a == 0xFFFF * m + a % 0xFFFF;
    assert 0xFFFF * k + a == 0xFFFF * (k + m) + a % 0xFFFF;
  }

  /**
   * csum_fold_helper: four conditional folds, then the complement truncated to 16 bits.
   * For a 32-bit input two folds already suffice, so the result is the complement of the
   * full ones'-complement fold.
   */
  method CsumFoldHelper(csum: U64) returns (r: U16)
    ensures csum < 0x1_0000_0000 ==> r == 0xFFFF - OnesFold(csum)
  {
    var c: int := csum;
    var i := 0;
    while i < 4
      invariant 0 <= i <= 4
      invariant 0 <= c && OnesFold(c) == OnesFold(csum)
      invariant csum < 0x1_0000_0000 ==> c < 0x1_0000_0000
      invariant csum < 0x1_0000_0000 && i >= 1 ==> c <= 0x1_FFFE
      invariant csum < 0x1_0000_0000 && i >= 2 ==> c < 0x1_0000
      invariant c < 0x1_0000_0000_0000_0000
    {
      if c / 0x1_0000 != 0 {
        c := c % 0x1_0000 + c / 0x1_0000;
      }
      i := i + 1;
    }
    r := 0xFFFF - c % 0x1_0000;
  }

  /** The checksum with the end-around carries folded in, as RFC 1071 defines it. */
  function UdpChecksumFolded(pkt: seq<Byte>, ip: nat, udp: nat): U16
    requires ip + 20 <= |pkt| && udp + 8 <= |pkt|
  {
    0xFFFF - OnesFold(UdpSum(pkt, ip, udp))
  }

  /** cal_udp_csum with its final fold done by csum_fold_helper. */
  method CalUdpCsumFolded(pkt: seq<Byte>, ip: nat, udp: nat) returns (csum: U16)
    requires ip + 20 <= |pkt| && udp + 8 <= |pkt|
    ensures csum == UdpChecksumFolded(pkt, ip, udp)
    ensures (0xFFFF - csum) % 0xFFFF == UdpSum(pkt, ip, udp) % 0xFFFF
  {
    var csumBuffer := UdpChecksumAccumulate(pkt, ip, udp);
    csum := CsumFoldHelper(csumBuffer);
    OnesFoldCongruent(csumBuffer);
  }

  /**
   * The folded checksum is the complement of the ones'-complement sum: adding it to the
   * sum gives 0 modulo 2^16 - 1, which is what a receiver checks.
   */
  lemma UdpChecksumFoldedVerifies(pkt: seq<Byte>, ip: nat, udp: nat)
    requires ip + 20 <= |pkt| && udp + 8 <= |pkt|
    ensures (UdpSum(pkt, ip, udp) + UdpChecksumFolded(pkt, ip, udp)) % 0xFFFF == 0
  {
    var c := UdpSum(pkt, ip, udp);
    var f := OnesFold(c);
    OnesFoldCongruent(c);
    var a, b := c / 0xFFFF, f / 0xFFFF;
    assert c == 0xFFFF * a + c % 0xFFFF && f == 0xFFFF * b + c % 0xFFFF;
    assert c + (0xFFFF - f) == 0xFFFF * (a - b + 1);
  }

  /**
   * A UDP datagram on which the single fold loses a carry: saddr 255.255.255.255,
   * daddr 0.0.0.0, protocol 17, ports 170 -> 53, length 8, checksum field 0. Its sum is
   * 0x2FFFE; cal_udp_csum returns 0xFFFF where the ones'-complement checksum is 0xFFFE.
   */
  lemma SingleFoldDropsCarry()
    ensures var pkt := CarryPacket();
      UdpSum(pkt, 0, 20) == 0x2_FFFE
      && UdpChecksumAsWritten(pkt, 0, 20) == 0xFFFF
      && UdpChecksumFolded(pkt, 0, 20) == 0xFFFE
  {
    CarryPacketSum();
    CarryChecksums(CarryPacket(), 0, 20);
  }

  /**
   * Any datagram whose sum is 0x2FFFE gets 0xFFFF from cal_udp_csum where the ones'-complement
   * checksum is 0xFFFE, and the receiver's check (sum plus checksum is 0 modulo 2^16 - 1)
   * rejects the value cal_udp_csum wrote.
   */
  lemma CarryChecksums(pkt: seq<Byte>, ip: nat, udp: nat)
    requires ip + 20 <= |pkt| && udp + 8 <= |pkt|
    requires UdpSum(pkt, ip, udp) == 0x2_FFFE
    ensures UdpChecksumAsWritten(pkt, ip, udp) == 0xFFFF
    ensures UdpChecksumFolded(pkt, ip, udp) == 0xFFFE
    ensures (UdpSum(pkt, ip, udp) + UdpChecksumAsWritten(pkt, ip, udp)) % 0xFFFF == 1
  {
    var c := UdpSum(pkt, ip, udp);
    assert c % 0x1_0000 == 0xFFFE && c / 0x1_0000 == 2;
    assert OnesFold(c) == OnesFold(0x1_0000) == OnesFold(1) == 1;
  }

  /** The sum cal_udp_csum accumulates over the carry packet, word by word. */
  lemma CarryPacketSum()
    ensures UdpSum(CarryPacket(), 0, 20) == 0x2_FFFE
  {
    var pkt := CarryPacket();
    CarryPacketBytes();
    assert PseudoHeaderSum(pkt, 0, 20) == 0x2_18FE by {
      assert LeWord(pkt, 12) == 0xFFFF && LeWord(pkt, 14) == 0xFFFF;
      assert LeWord(pkt, 16) == 0 && LeWord(pkt, 18) == 0 && LeWord(pkt, 24) == 0x0800;
    }
    assert WordsSum(pkt, 20, 4) == 0xE700 by {
      assert LeWord(pkt, 20) == 0xAA00 && LeWord(pkt, 22) == 0x3500 && LeWord(pkt, 24) == 0x0800 && LeWord(pkt, 26) == 0;
      assert WordsSum(pkt, 20, 1) == 0xAA00;
      assert WordsSum(pkt, 20, 2) == 0xDF00;
      assert WordsSum(pkt, 20, 3) == 0xE700;
    }
    assert WordsRead(pkt, 20) == 4;
  }

  /** The bytes of the carry packet the checksum reads. */
  lemma CarryPacketBytes()
    ensures var pkt := CarryPacket();
      |pkt| == 28 && pkt[9] == 17 && pkt[12] == pkt[13] == pkt[14] == pkt[15] == 0xFF
      && pkt[16] == pkt[17] == pkt[18] == pkt[19] == 0
      && pkt[20] == 0 && pkt[21] == 0xAA && pkt[22] == 0 && pkt[23] == 0x35
      && pkt[24] == 0 && pkt[25] == 8 && pkt[26] == 0 && pkt[27] == 0
  {
  }

  function CarryPacket(): seq<Byte> {
    [0x45, 0, 0, 28, 0, 0, 0, 0, 64, 17, 0, 0, 0xFF, 0xFF, 0xFF, 0xFF, 0, 0, 0, 0]
    + [0x00, 0xAA, 0x00, 0x35, 0x00, 0x08, 0x00, 0x00]
  }

  // ---------------------------------------------------------------------------
  // parse_query
  // ---------------------------------------------------------------------------

  /** struct dns_query: record type and class as numbers, and the 256-byte name buffer. */
  datatype DnsQuery = DnsQuery(recordType: U16, dnsClass: U16, name: seq<Byte>)

  /** Byte n after the start is the first zero byte, inside the packet and within 256 bytes. */
  predicate IsFirstZero(pkt: seq<Byte>, start: nat, n: nat) {
    n < MaxDnsNameLength && start + n < |pkt| && pkt[start + n] == 0
    && forall k :: start <= k < start + n ==> pkt[k] != 0
  }

  /**
   * parse_query: scan at most 256 bytes from the start for the terminating zero of the
   * name; the query length is the name bytes plus the zero byte plus type and class.
   */
  method ParseQuery(pkt: seq<Byte>, start: nat) returns (len: int, q: DnsQuery)
    ensures len == -1 || 5 <= len < MaxDnsNameLength + 5
    ensures |q.name| == MaxDnsNameLength
    ensures forall n: nat :: IsFirstZero(pkt, start, n) ==> len == n + 5
    ensures len >= 5 ==> IsFirstZero(pkt, start, len - 5)
    ensures len >= 5 ==> q.name == pkt[start..start + len - 5] + Zeros(MaxDnsNameLength - (len - 5))
    ensures len >= 5 && start + len <= |pkt| ==>
      q.recordType == BeWord(pkt, start + len - 4) && q.dnsClass == BeWord(pkt, start + len - 2)
    ensures len >= 5 && start + len > |pkt| ==> q.recordType == 0 && q.dnsClass == 0
    ensures len == -1 ==> forall n: nat :: !IsFirstZero(pkt, start, n)
  {
    var name := Zeros(MaxDnsNameLength);
    var recordType, dnsClass := 0, 0;
    var i := 0;
    while i < MaxDnsNameLength
      invariant 0 <= i <= MaxDnsNameLength
      invariant i == 0 || start + i <= |pkt|
      invariant forall k :: start <= k < start + i ==> pkt[k] != 0
      invariant |name| == MaxDnsNameLength
      invariant name == (if i == 0 then [] else pkt[start..start + i]) + Zeros(MaxDnsNameLength - i)
    {
      if start + i + 1 > |pkt| {
        break;
      }
      if pkt[start + i] == 0 {
        if start + i + 5 <= |pkt| {
          recordType := BeWord(pkt, start + i + 1);
          dnsClass := BeWord(pkt, start + i + 3);
        }
        assert IsFirstZero(pkt, start, i);
        assert i == 0 ==> pkt[start..start + i] == [];
        return i + 5, DnsQuery(recordType, dnsClass, name);
      }
      name := name[i := pkt[start + i]];
      assert pkt[start..start + i + 1] == (if i == 0 then [] else pkt[start..start + i]) + [pkt[start + i]];
      i := i + 1;
    }
    return -1, DnsQuery(0, 0, name);
  }

  // ---------------------------------------------------------------------------
  // create_query_response
  // ---------------------------------------------------------------------------

  /** struct a_record: the address (already in network order) and the TTL. */
  datatype ARecord = ARecord(ipAddr: seq<Byte>, ttl: U32)

  function BeBytes32(x: U32): (b: seq<Byte>)
    ensures |b| == 4
  {
    [x / 0x100_0000, (x / 0x1_0000) % 0x100, (x / 0x100) % 0x100, x % 0x100]
  }

  function BeValue32(b: seq<Byte>): nat
    requires |b| == 4
  {
    (b[0] as int) * 0x100_0000 + (b[1] as int) * 0x1_0000 + (b[2] as int) * 0x100 + b[3] as int
  }

  lemma BeBytes32RoundTrip(x: U32)
    ensures BeValue32(BeBytes32(x)) == x
  {
    var y := x / 0x100;
    var z := y / 0x100;
    var w := z / 0x100;
    assert x == y * 0x100 + x % 0x100;
    assert y == z * 0x100 + y % 0x100;
    assert z == w * 0x100 + z % 0x100;
    assert x / 0x1_0000 == z;
    assert x / 0x100_0000 == w;
  }

  /** The packed struct dns_response as stored: every field converted to network order. */
  function ResponseHeaderBytes(ttl: U32): (b: seq<Byte>)
    ensures |b| == DnsResponseSize
  {
    [0xc0, 0x0c, 0x00, ARecordType, 0x00, DnsClassIn] + BeBytes32(ttl) + [0x00, InAddrSize]
  }

  /** A resource record as a resolver reads it back from the answer bytes. */
  datatype AnswerRecord = AnswerRecord(namePointer: U16, recordType: U16, dnsClass: U16, ttl: nat, rdLength: U16, rdata: seq<Byte>)

  function ReadAnswer(b: seq<Byte>): AnswerRecord
    requires |b| >= DnsResponseSize
  {
    AnswerRecord(BeWord(b, 0), BeWord(b, 2), BeWord(b, 4), BeValue32(b[6..10]), BeWord(b, 10),
                 b[DnsResponseSize..DnsResponseSize + (if |b| - DnsResponseSize < BeWord(b, 10) then |b| - DnsResponseSize else BeWord(b, 10))])
  }

  /** The 16 answer bytes read back as a compressed-name pointer to offset 12, type A, class IN, the TTL and the address. */
  lemma AnswerRoundTrip(a: ARecord)
    requires |a.ipAddr| == InAddrSize
    ensures ReadAnswer(ResponseHeaderBytes(a.ttl) + a.ipAddr)
         == AnswerRecord(QueryPointer, ARecordType, DnsClassIn, a.ttl, InAddrSize, a.ipAddr)
  {
    var b := ResponseHeaderBytes(a.ttl) + a.ipAddr;
    assert b[6..10] == BeBytes32(a.ttl);
    BeBytes32RoundTrip(a.ttl);
    assert b[DnsResponseSize..DnsResponseSize + 4] == a.ipAddr;
  }

  /**
   * create_query_response: the response record is written at the start of the buffer and
   * the address right after *buf_size + 12 bytes; buf_size grows by 16.
   */
  method CreateQueryResponse(a: ARecord, dnsBuffer: array<Byte>, bufSize: nat) returns (newSize: nat)
    requires |a.ipAddr| == InAddrSize
    requires bufSize + DnsResponseSize + InAddrSize <= dnsBuffer.Length
    modifies dnsBuffer
    ensures newSize == bufSize + DnsResponseSize + InAddrSize
    ensures dnsBuffer[..DnsResponseSize] == ResponseHeaderBytes(a.ttl)
    ensures dnsBuffer[bufSize + DnsResponseSize..newSize] == a.ipAddr
    ensures forall k :: DnsResponseSize <= k < dnsBuffer.Length && !(bufSize + DnsResponseSize <= k < newSize)
              ==> dnsBuffer[k] == old(dnsBuffer[k])
  {
    var header := ResponseHeaderBytes(a.ttl);
    forall k | 0 <= k < DnsResponseSize {
      dnsBuffer[k] := header[k];
    }
    newSize := bufSize + DnsResponseSize;
    var at := newSize;
    forall k | 0 <= k < InAddrSize {
      dnsBuffer[at + k] := a.ipAddr[k];
    }
    newSize := newSize + InAddrSize;
  }

  // ---------------------------------------------------------------------------
  // modify_dns_header_response
  // ---------------------------------------------------------------------------

  /**
   * Set the top bit of a flags byte. With the little-endian bit-field layout of struct
   * dnshdr, qr is the top bit of byte 2 and ra the top bit of byte 3, as on the wire.
   */
  function SetTopBit(b: Byte): (r: Byte)
    ensures r >= 0x80 && r % 0x80 == b % 0x80
  {
    if b >= 0x80 then b else b + 0x80
  }

  /** The header after the response flags and a single answer are set. */
  function ResponseHeader(s: seq<Byte>, hdr: nat): (r: seq<Byte>)
    requires hdr + DnsHeaderSize <= |s|
    ensures |r| == |s|
    ensures r[hdr + 2] >= 0x80 && r[hdr + 2] % 0x80 == s[hdr + 2] % 0x80
    ensures r[hdr + 3] >= 0x80 && r[hdr + 3] % 0x80 == s[hdr + 3] % 0x80
    ensures BeWord(r, hdr + 6) == 1
    ensures forall k :: 0 <= k < |s| && k != hdr + 2 && k != hdr + 3 && k != hdr + 6 && k != hdr + 7 ==> r[k] == s[k]
  {
    s[hdr + 2 := SetTopBit(s[hdr + 2])][hdr + 3 := SetTopBit(s[hdr + 3])][hdr + 6 := 0][hdr + 7 := 1]
  }

  /** Turning a header into a response twice is the same as once. */
  lemma ResponseHeaderIdempotent(s: seq<Byte>, hdr: nat)
    requires hdr + DnsHeaderSize <= |s|
    ensures ResponseHeader(ResponseHeader(s, hdr), hdr) == ResponseHeader(s, hdr)
  {
  }

  /** modify_dns_header_response: qr = 1, ra = 1, ans_count = htons(1). */
  method ModifyDnsHeaderResponse(pkt: array<Byte>, hdr: nat)
    requires hdr + DnsHeaderSize <= pkt.Length
    modifies pkt
    ensures pkt[..] == ResponseHeader(old(pkt[..]), hdr)
  {
    pkt[hdr + 2] := SetTopBit(pkt[hdr + 2]);
    pkt[hdr + 3] := SetTopBit(pkt[hdr + 3]);
    pkt[hdr + 6], pkt[hdr + 7] := 0, 1;
  }

  // ---------------------------------------------------------------------------
  // copy_to_pkt_buf
  // ---------------------------------------------------------------------------

  /**
   * copy_to_pkt_buf: copy n bytes to dst only when dst + n stays within data_end; otherwise
   * the packet is left alone. The 16- and 27-byte cases use __builtin_memcpy and the others a
   * byte loop; all three copy the same bytes.
   */
  method CopyToPktBuf(pkt: array<Byte>, dst: nat, src: seq<Byte>, n: nat)
    requires n <= |src|
    modifies pkt
    ensures dst + n <= pkt.Length ==> pkt[..] == old(pkt[..dst]) + src[..n] + old(pkt[dst + n..])
    ensures dst + n > pkt.Length ==> pkt[..] == old(pkt[..])
  {
    if pkt.Length >= dst + n {
      var i := 0;
      while i < n
        invariant 0 <= i <= n
        invariant pkt[..] == old(pkt[..dst]) + src[..i] + old(pkt[dst + i..])
      {
        pkt[dst + i] := src[i];
        assert src[..i + 1] == src[..i] + [src[i]];
        i := i + 1;
      }
    }
  }
}
