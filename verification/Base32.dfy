// Ticket references: the unpadded base32 of section 6 of RFC 4648, computed with
// a 32-bit accumulator that is never masked and simply wraps.
module Base32 {
  import opened Powers
  import opened Wrappers

  type Byte = b: int | 0 <= b < 256 witness 0

  type Word = w: int | 0 <= w < 0x1_0000_0000 witness 0

  const ALPHABET := "ABCDEFGHIJKLMNOPQRSTUVWXYZ234567"

  /******* Bits *******/

  // The low n bits of v, most significant first.
  function ToBits(v: nat, n: nat): (bits: seq<bool>)
    ensures |bits| == n
  {
    if n == 0 then [] else ToBits(v / 2, n - 1) + [v % 2 == 1]
  }

  function FromBits(bits: seq<bool>): nat {
    if |bits| == 0 then 0 else 2 * FromBits(bits[..|bits| - 1]) + if bits[|bits| - 1] then 1 else 0
  }

  function Zeros(n: nat): (bits: seq<bool>)
    ensures |bits| == n
  {
    ToBits(0, n)
  }

  lemma {:induction false} FromToBits(v: nat, n: nat)
    ensures FromBits(ToBits(v, n)) == v % Pow2(n)
  {
    if n != 0 {
      FromToBits(v / 2, n - 1);
      DivModDouble(v, Pow2(n - 1));
    }
  }

  lemma {:induction false} ToFromBits(bits: seq<bool>)
    ensures ToBits(FromBits(bits), |bits|) == bits
  {
    if |bits| != 0 {
      ToFromBits(bits[..|bits| - 1]);
    }
  }

  // Shifting left and filling in below appends bits.
  lemma {:induction false} AppendBits(v: nat, n: nat, w: nat, k: nat)
    requires w < Pow2(k)
    ensures ToBits(v * Pow2(k) + w, n + k) == ToBits(v, n) + ToBits(w, k)
  {
    if k != 0 {
      var p := Pow2(k - 1);
      assert v * Pow2(k) == 2 * (v * p);
      AppendBits(v, n, w / 2, k - 1);
    }
  }

  function ShiftRight(v: nat, k: nat): nat {
    if k == 0 then v else ShiftRight(v / 2, k - 1)
  }

  lemma {:induction false} ShiftRightDivides(v: nat, k: nat)
    ensures ShiftRight(v, k) == v / Pow2(k)
  {
    if k != 0 {
      ShiftRightDivides(v / 2, k - 1);
      DivModDouble(v, Pow2(k - 1));
    }
  }

  // Shifting right drops them again.
  lemma {:induction false} SplitBits(v: nat, n: nat, k: nat)
    ensures ToBits(v, n + k) == ToBits(ShiftRight(v, k), n) + ToBits(v, k)
  {
    if k == 0 {
      assert ToBits(v, k) == [];
    } else {
      SplitBits(v / 2, n, k - 1);
    }
  }

  // What wraps away is above the low bits.
  lemma {:induction false} WrapKeepsLowBits(v: nat, n: nat, m: nat)
    requires n <= m
    ensures ToBits(v % Pow2(m), n) == ToBits(v, n)
  {
    if n != 0 {
      WrapKeepsLowBits(v / 2, n - 1, m - 1);
      DivModDouble(v, Pow2(m - 1));
    }
  }

  lemma Pow2OfGroup()
    ensures Pow2(5) == 32
  {
  }

  lemma Pow2OfByte()
    ensures Pow2(8) == 256
  {
  }

  lemma {:induction false} Pow2Sum(m: nat, n: nat)
    ensures Pow2(m + n) == Pow2(m) * Pow2(n)
  {
    if m != 0 {
      Pow2Sum(m - 1, n);
      assert Pow2(m) * Pow2(n) == 2 * (Pow2(m - 1) * Pow2(n));
    }
  }

  lemma Pow2OfWord()
    ensures Pow2(32) == 0x1_0000_0000
  {
    Pow2OfByte();
    Pow2Sum(8, 8);
    Pow2Sum(16, 16);
  }

  lemma GroupOfBits(v: nat)
    ensures FromBits(ToBits(v, 5)) == v % 32
  {
    Pow2OfGroup();
    FromToBits(v, 5);
  }

  lemma ByteOfBits(v: nat)
    ensures FromBits(ToBits(v, 8)) == v % 256
  {
    Pow2OfByte();
    FromToBits(v, 8);
  }

  /******* The standard's encoding *******/

  // The octets as one bit stream.
  function BitStream(bytes: seq<Byte>): (bits: seq<bool>)
    ensures |bits| == 8 * |bytes|
  {
    if |bytes| == 0 then [] else ToBits(bytes[0], 8) + BitStream(bytes[1..])
  }

  // Groups of five bits from the left; the last one is filled with zero bits.
  function Groups(bits: seq<bool>): (groups: seq<nat>)
    ensures |groups| == (|bits| + 4) / 5
  {
    if |bits| == 0 then []
    else if |bits| < 5 then [FromBits(bits + Zeros(5 - |bits|))]
    else [FromBits(bits[..5])] + Groups(bits[5..])
  }

  function Letter(group: nat): char {
    if group < |ALPHABET| then ALPHABET[group] else '?'
  }

  function Letters(groups: seq<nat>): (text: string)
    ensures |text| == |groups|
    ensures forall i :: 0 <= i < |groups| ==> text[i] == Letter(groups[i])
  {
    seq(|groups|, i requires 0 <= i < |groups| => Letter(groups[i]))
  }

  function Encode(bytes: seq<Byte>): (text: string)
    ensures |text| == (8 * |bytes| + 4) / 5
  {
    Letters(Groups(BitStream(bytes)))
  }

  /******* Decoding *******/

  function LetterValue(c: char): Option<nat> {
    if 'A' <= c <= 'Z' then Some(c as int - 'A' as int)
    else if '2' <= c <= '7' then Some(26 + c as int - '2' as int)
    else None
  }

  function Values(text: string): Option<seq<nat>> {
    if |text| == 0 then Some([])
    else
      var first, rest := LetterValue(text[0]), Values(text[1..]);
      if first.None? || rest.None? then None else Some([first.value] + rest.value)
  }

  function Ungroup(groups: seq<nat>): (bits: seq<bool>)
    ensures |bits| == 5 * |groups|
  {
    if |groups| == 0 then [] else ToBits(groups[0], 5) + Ungroup(groups[1..])
  }

  function Octets(bits: seq<bool>): (bytes: seq<nat>) {
    if |bits| < 8 then [] else [FromBits(bits[..8])] + Octets(bits[8..])
  }

  // Bits that do not fill an octet are dropped.
  function Decode(text: string): Option<seq<nat>> {
    var values := Values(text);
    if values.None? then None else Some(Octets(Ungroup(values.value)))
  }

  /******* Round trip *******/

  lemma LetterRoundTrip(group: nat)
    requires group < 32
    ensures LetterValue(Letter(group)) == Some(group)
  {
  }

  lemma {:induction false} GroupsBelow32(bits: seq<bool>)
    ensures forall i :: 0 <= i < |Groups(bits)| ==> Groups(bits)[i] < 32
  {
    if 0 < |bits| < 5 {
      var full := bits + Zeros(5 - |bits|);
      ToFromBits(full);
      GroupOfBits(FromBits(full));
    } else if |bits| >= 5 {
      ToFromBits(bits[..5]);
      GroupOfBits(FromBits(bits[..5]));
      GroupsBelow32(bits[5..]);
    }
  }

  lemma {:induction false} ValuesOfLetters(groups: seq<nat>)
    requires forall i :: 0 <= i < |groups| ==> groups[i] < 32
    ensures Values(Letters(groups)) == Some(groups)
  {
    if |groups| == 0 {
      assert groups == [];
    } else {
      LetterRoundTrip(groups[0]);
      ValuesOfLetters(groups[1..]);
      assert Letters(groups)[1..] == Letters(groups[1..]);
      assert groups == [groups[0]] + groups[1..];
    }
  }

  lemma {:induction false} UngroupGroups(bits: seq<bool>)
    ensures Ungroup(Groups(bits)) == bits + Zeros(5 * |Groups(bits)| - |bits|)
  {
    if |bits| == 0 {
    } else if |bits| < 5 {
      var full := bits + Zeros(5 - |bits|);
      ToFromBits(full);
      assert Groups(bits)[1..] == [];
    } else {
      ToFromBits(bits[..5]);
      UngroupGroups(bits[5..]);
      assert Groups(bits)[1..] == Groups(bits[5..]);
      assert bits == bits[..5] + bits[5..];
    }
  }

  lemma SplitAt(front: seq<bool>, back: seq<bool>)
    ensures (front + back)[..|front|] == front && (front + back)[|front|..] == back
  {
  }

  lemma OctetFirst(head: seq<bool>, rest: seq<bool>)
    requires |head| == 8
    ensures Octets(head + rest) == [FromBits(head)] + Octets(rest)
  {
    SplitAt(head, rest);
  }

  lemma ByteFirst(byte: Byte, rest: seq<bool>)
    ensures Octets(ToBits(byte, 8) + rest) == [byte] + Octets(rest)
  {
    var head := ToBits(byte, 8);
    assert FromBits(head) == byte by { ByteOfBits(byte); }
    OctetFirst(head, rest);
  }

  lemma Reassociate(a: seq<bool>, b: seq<bool>, c: seq<bool>)
    ensures (a + b) + c == a + (b + c)
  {
  }

  lemma StreamFirst(bytes: seq<Byte>, tail: seq<bool>)
    requires |bytes| > 0
    ensures BitStream(bytes) + tail == ToBits(bytes[0], 8) + (BitStream(bytes[1..]) + tail)
  {
    Reassociate(ToBits(bytes[0], 8), BitStream(bytes[1..]), tail);
  }

  lemma {:induction false} OctetsOfStream(bytes: seq<Byte>, tail: seq<bool>)
    requires |tail| < 8
    ensures Octets(BitStream(bytes) + tail) == bytes
  {
    if |bytes| == 0 {
      assert BitStream(bytes) + tail == tail;
    } else {
      StreamFirst(bytes, tail);
      ByteFirst(bytes[0], BitStream(bytes[1..]) + tail);
      OctetsOfStream(bytes[1..], tail);
    }
  }

  // Decoding gives the octets back, for every length.
  lemma RoundTrip(bytes: seq<Byte>)
    ensures Decode(Encode(bytes)) == Some(bytes)
  {
    var bits := BitStream(bytes);
    GroupsBelow32(bits);
    ValuesOfLetters(Groups(bits));
    UngroupGroups(bits);
    OctetsOfStream(bytes, Zeros(5 * |Groups(bits)| - |bits|));
  }

  lemma Injective(a: seq<Byte>, b: seq<Byte>)
    requires Encode(a) == Encode(b)
    ensures a == b
  {
    RoundTrip(a);
    RoundTrip(b);
  }

  /******* Which texts are encodings *******/

  lemma ValueOfLetter(c: char)
    ensures LetterValue(c).Some? ==> LetterValue(c).value < 32 && Letter(LetterValue(c).value) == c
  {
  }

  lemma {:induction false} ValuesByLetter(text: string)
    requires Values(text).Some?
    ensures |Values(text).value| == |text|
    ensures forall i :: 0 <= i < |text| ==> LetterValue(text[i]) == Some(Values(text).value[i])
  {
    if |text| != 0 { ValuesByLetter(text[1..]); }
  }

  lemma LettersOfValues(text: string)
    requires Values(text).Some?
    ensures Letters(Values(text).value) == text
    ensures forall i :: 0 <= i < |text| ==> Values(text).value[i] < 32
  {
    ValuesByLetter(text);
    forall i | 0 <= i < |text|
      ensures Values(text).value[i] < 32 && Letter(Values(text).value[i]) == text[i]
    {
      ValueOfLetter(text[i]);
    }
  }

  lemma OctetBits(octet: seq<bool>)
    requires |octet| == 8
    ensures FromBits(octet) < 256 && ToBits(FromBits(octet), 8) == octet
  {
    ToFromBits(octet);
    ByteOfBits(FromBits(octet));
  }

  lemma {:induction false} StreamOfOctets(bits: seq<bool>)
    ensures forall i :: 0 <= i < |Octets(bits)| ==> Octets(bits)[i] < 256
    ensures |Octets(bits)| == |bits| / 8
    ensures BitStream(Octets(bits)) == bits[..8 * (|bits| / 8)]
  {
    if |bits| >= 8 {
      OctetBits(bits[..8]);
      StreamOfOctets(bits[8..]);
      assert bits[..8 * (|bits| / 8)] == bits[..8] + bits[8..][..8 * (|bits[8..]| / 8)];
    }
  }

  lemma UngroupFirst(groups: seq<nat>)
    requires |groups| > 0
    ensures Ungroup(groups)[..5] == ToBits(groups[0], 5) && Ungroup(groups)[5..] == Ungroup(groups[1..])
  {
    SplitAt(ToBits(groups[0], 5), Ungroup(groups[1..]));
  }

  lemma GroupValue(bits: seq<bool>, group: nat)
    requires group < 32 && bits == ToBits(group, 5)
    ensures FromBits(bits) == group
  {
    GroupOfBits(group);
  }

  lemma {:induction false} GroupsOfUngroup(groups: seq<nat>, bits: seq<bool>)
    requires forall i :: 0 <= i < |groups| ==> groups[i] < 32
    requires 5 * |groups| - 5 < |bits| <= 5 * |groups|
    requires Ungroup(groups) == bits + Zeros(5 * |groups| - |bits|)
    ensures Groups(bits) == groups
  {
    if |groups| != 0 {
      var all, fill := Ungroup(groups), Zeros(5 * |groups| - |bits|);
      UngroupFirst(groups);
      GroupValue(all[..5], groups[0]);
      if |bits| < 5 {
        assert all == all[..5];
        assert groups == [groups[0]];
      } else {
        assert all[..5] == bits[..5] && all[5..] == bits[5..] + fill;
        GroupsOfUngroup(groups[1..], bits[5..]);
        assert groups == [groups[0]] + groups[1..];
      }
    }
  }

  // Letters of the alphabet only, fewer than five bits over the last octet, and
  // those bits zero.
  predicate Canonical(text: string) {
    Values(text).Some?
    && var bits := Ungroup(Values(text).value);
       var over := |bits| % 8;
       over < 5 && bits[|bits| - over..] == Zeros(over)
  }

  lemma FillIsShort(n: nat)
    ensures var over := 5 * ((8 * n + 4) / 5) - 8 * n;
            0 <= over < 5 && over == 5 * ((8 * n + 4) / 5) % 8
  {
    var groups := (8 * n + 4) / 5;
    assert 5 * groups == n * 8 + (5 * groups - 8 * n);
    DivModUnique(5 * groups, 8, n, 5 * groups - 8 * n);
  }

  lemma EncodingIsCanonical(bytes: seq<Byte>)
    ensures Canonical(Encode(bytes))
  {
    var stream := BitStream(bytes);
    var groups := Groups(stream);
    GroupsBelow32(stream);
    ValuesOfLetters(groups);
    UngroupGroups(stream);
    FillIsShort(|bytes|);
    var bits := Ungroup(groups);
    var over := |bits| - |stream|;
    assert over == |bits| % 8 && over < 5;
    assert bits[|stream|..] == Zeros(over);
  }

  // A canonical text is the encoding of the octets it holds.
  // Groups with a short zero remainder are those of their whole octets.
  lemma GroupsOfWhole(groups: seq<nat>)
    requires forall i :: 0 <= i < |groups| ==> groups[i] < 32
    requires var bits := Ungroup(groups);
             var over := |bits| % 8;
             over < 5 && bits[|bits| - over..] == Zeros(over)
    ensures var bits := Ungroup(groups); Groups(bits[..8 * (|bits| / 8)]) == groups
  {
    var bits := Ungroup(groups);
    var whole := bits[..8 * (|bits| / 8)];
    assert |bits| - |bits| % 8 == |whole|;
    assert bits == whole + bits[|whole|..];
    GroupsOfUngroup(groups, whole);
  }

  lemma CanonicalIsEncoding(text: string)
    requires Canonical(text)
    ensures forall i :: 0 <= i < |Octets(Ungroup(Values(text).value))| ==>
              Octets(Ungroup(Values(text).value))[i] < 256
    ensures Encode(Octets(Ungroup(Values(text).value))) == text
  {
    LettersOfValues(text);
    StreamOfOctets(Ungroup(Values(text).value));
    GroupsOfWhole(Values(text).value);
  }

  // The encodings are exactly the canonical texts.
  lemma EncodingsExactly(text: string)
    ensures Canonical(text) <==> exists bytes :: Encode(bytes) == text
  {
    if Canonical(text) {
      CanonicalIsEncoding(text);
      var bytes: seq<Byte> := Octets(Ungroup(Values(text).value));
      assert Encode(bytes) == text;
    }
    if bytes: seq<Byte> :| Encode(bytes) == text {
      EncodingIsCanonical(bytes);
    }
  }

  /******* Letter by letter *******/

  // Bit j of the stream, most significant first; there are zeros beyond its end.
  function BitOf(bytes: seq<Byte>, j: nat): nat {
    if j < 8 * |bytes| then bytes[j / 8] / Pow2(7 - j % 8) % 2 else 0
  }

  lemma {:induction false} ToBitsAt(v: nat, n: nat, k: nat)
    requires k < n
    ensures ToBits(v, n)[k] <==> v / Pow2(n - 1 - k) % 2 == 1
  {
    if k < n - 1 {
      ToBitsAt(v / 2, n - 1, k);
      DivModDouble(v, Pow2(n - 2 - k));
    }
  }

  lemma {:induction false} StreamAt(bytes: seq<Byte>, j: nat)
    requires j < 8 * |bytes|
    ensures BitStream(bytes)[j] <==> BitOf(bytes, j) == 1
  {
    if j < 8 {
      ToBitsAt(bytes[0], 8, j);
    } else {
      StreamAt(bytes[1..], j - 8);
      DivModUnique(j, 8, j / 8, j % 8);
      DivModUnique(j - 8, 8, j / 8 - 1, j % 8);
    }
  }

  function BitAt(bits: seq<bool>, j: nat): nat { if j < |bits| && bits[j] then 1 else 0 }

  // Five bits of a stream as a number.
  function FiveAt(bits: seq<bool>, j: nat): nat {
    16 * BitAt(bits, j) + 8 * BitAt(bits, j + 1) + 4 * BitAt(bits, j + 2) + 2 * BitAt(bits, j + 3)
    + BitAt(bits, j + 4)
  }

  lemma FromFive(bits: seq<bool>)
    requires |bits| == 5
    ensures FromBits(bits) == FiveAt(bits, 0)
  {
    var four, three := bits[..4], bits[..3];
    var two, one := bits[..2], bits[..1];
    assert four[..3] == three && three[..2] == two && two[..1] == one && one[..0] == [];
    assert FromBits(one) == BitAt(bits, 0);
    assert FromBits(two) == 2 * FromBits(one) + BitAt(bits, 1);
    assert FromBits(three) == 2 * FromBits(two) + BitAt(bits, 2);
    assert FromBits(four) == 2 * FromBits(three) + BitAt(bits, 3);
  }

  lemma ZerosAt(n: nat, k: nat)
    requires k < n
    ensures !Zeros(n)[k]
  {
    ToBitsAt(0, n, k);
    assert 0 / Pow2(n - 1 - k) == 0;
  }

  lemma ShortGroup(bits: seq<bool>)
    requires 0 < |bits| < 5
    ensures FromBits(bits + Zeros(5 - |bits|)) == FiveAt(bits, 0)
  {
    var full := bits + Zeros(5 - |bits|);
    FromFive(full);
    forall k | |bits| <= k < 5 ensures !full[k] {
      ZerosAt(5 - |bits|, k - |bits|);
    }
  }

  lemma FiveLater(bits: seq<bool>, j: nat)
    requires |bits| >= 5
    ensures FiveAt(bits[5..], j) == FiveAt(bits, j + 5)
  {
    forall k: nat ensures BitAt(bits[5..], k) == BitAt(bits, k + 5) { }
  }

  lemma {:induction false} GroupIs(bits: seq<bool>, i: nat)
    requires i < |Groups(bits)|
    ensures Groups(bits)[i] == FiveAt(bits, 5 * i)
  {
    if |bits| < 5 {
      ShortGroup(bits);
    } else if i == 0 {
      FromFive(bits[..5]);
    } else {
      GroupIs(bits[5..], i - 1);
      FiveLater(bits, 5 * (i - 1));
    }
  }

  // Letter i of the encoding is the i-th group of five bits, as the standard's
  // alphabet has it.
  lemma EncodedLetter(bytes: seq<Byte>, i: nat)
    requires i < |Encode(bytes)|
    ensures var v := 16 * BitOf(bytes, 5 * i) + 8 * BitOf(bytes, 5 * i + 1) + 4 * BitOf(bytes, 5 * i + 2)
                     + 2 * BitOf(bytes, 5 * i + 3) + BitOf(bytes, 5 * i + 4);
            v < 32 && Encode(bytes)[i] == "ABCDEFGHIJKLMNOPQRSTUVWXYZ234567"[v]
  {
    var bits := BitStream(bytes);
    GroupIs(bits, i);
    GroupsBelow32(bits);
    forall j: nat | 5 * i <= j < 5 * i + 5 ensures BitAt(bits, j) == BitOf(bytes, j) {
      if j < |bits| { StreamAt(bytes, j); }
    }
  }

  /******* References *******/

  function Serial(random: seq<Byte>): string { "GVS-" + Encode(random) }

  function PublicReference(random: seq<Byte>): string { "GV-" + Encode(random) }

  // A ten-byte draw gives a 20-character serial, a six-byte draw a 13-character
  // reference; equal texts come from equal draws only, and a serial is never a
  // public reference.
  lemma ReferencesIdentifyDraws(a: seq<Byte>, b: seq<Byte>)
    ensures Serial(a) == Serial(b) <==> a == b
    ensures PublicReference(a) == PublicReference(b) <==> a == b
    ensures |a| == 10 ==> |Serial(a)| == 20
    ensures |b| == 6 ==> |PublicReference(b)| == 13
    ensures Serial(a) != PublicReference(b)
    ensures "GVS-" <= Serial(a) && Serial(a)[4..] == Encode(a)
    ensures "GV-" <= PublicReference(b) && PublicReference(b)[3..] == Encode(b)
  {
    if Serial(a) == Serial(b) {
      assert Serial(a)[4..] == Encode(a) && Serial(b)[4..] == Encode(b);
      Injective(a, b);
    }
    if PublicReference(a) == PublicReference(b) {
      assert PublicReference(a)[3..] == Encode(a) && PublicReference(b)[3..] == Encode(b);
      Injective(a, b);
    }
    assert Serial(a)[2] == 'S' && PublicReference(b)[2] == '-';
  }

  /******* The loop *******/

  // (value << 8) | byte on the 32-bit word: the byte goes into bits the shift
  // has cleared, so the bitwise or is an addition.
  function PushByte(value: Word, byte: Byte): Word {
    (value * 256 % 0x1_0000_0000 + byte) % 0x1_0000_0000
  }

  // (value >>> k) & 31
  function GroupAt(value: Word, k: nat): (group: nat)
    ensures group < 32
  {
    value / Pow2(k) % 32
  }

  // (value << k) & 31
  function PaddedGroup(value: Word, k: nat): (group: nat)
    ensures group < 32
  {
    value * Pow2(k) % 0x1_0000_0000 % 32
  }

  // What has been written, with what the pending bits and the rest still owe.
  ghost predicate Owing(output: string, pending: seq<bool>, rest: seq<bool>, goal: string) {
    output + Letters(Groups(pending + rest)) == goal
  }

  lemma Start(buffer: seq<Byte>)
    ensures Owing("", ToBits(0, 0), BitStream(buffer[0..]), Encode(buffer))
  {
    assert buffer[0..] == buffer && ToBits(0, 0) + BitStream(buffer) == BitStream(buffer);
    assert "" + Encode(buffer) == Encode(buffer);
  }

  lemma Regroup<T>(a: seq<T>, b: seq<T>, c: seq<T>)
    ensures a + b + c == a + (b + c)
  {
  }

  lemma TakeByte(output: string, pending: seq<bool>, byte: seq<bool>, rest: seq<bool>, goal: string)
    requires Owing(output, pending, byte + rest, goal)
    ensures Owing(output, pending + byte, rest, goal)
  {
    Regroup(pending, byte, rest);
  }

  lemma PushByteWraps(value: Word, byte: Byte)
    ensures PushByte(value, byte) == (value * 256 + byte) % Pow2(32)
  {
    Pow2OfWord();
  }

  lemma PushByteBits(value: Word, bits: nat, byte: Byte)
    requires bits < 5
    ensures ToBits(PushByte(value, byte), bits + 8) == ToBits(value, bits) + ToBits(byte, 8)
  {
    PushByteWraps(value, byte);
    Pow2OfByte();
    WrapKeepsLowBits(value * 256 + byte, bits + 8, 32);
    AppendBits(value, bits, byte, 8);
  }

  lemma ShiftOut(value: Word, bits: nat)
    requires bits >= 5
    ensures ToBits(value, bits) == ToBits(value, bits)[..5] + ToBits(value, bits - 5)
    ensures FromBits(ToBits(value, bits)[..5]) == GroupAt(value, bits - 5)
  {
    var top := ShiftRight(value, bits - 5);
    ShiftRightDivides(value, bits - 5);
    SplitBits(value, 5, bits - 5);
    GroupOfBits(top);
    assert ToBits(value, bits)[..5] == ToBits(top, 5);
  }

  lemma GroupFirst(group: seq<bool>, left: seq<bool>)
    requires |group| == 5
    ensures Groups(group + left) == [FromBits(group)] + Groups(left)
  {
    assert (group + left)[..5] == group && (group + left)[5..] == left;
  }

  lemma LettersFirst(group: nat, groups: seq<nat>)
    ensures Letters([group] + groups) == [Letter(group)] + Letters(groups)
  {
  }

  lemma Emit(output: string, group: seq<bool>, pending: seq<bool>, rest: seq<bool>, goal: string)
    requires |group| == 5 && Owing(output, group + pending, rest, goal)
    ensures Owing(output + [Letter(FromBits(group))], pending, rest, goal)
  {
    var left := pending + rest;
    Regroup(group, pending, rest);
    GroupFirst(group, left);
    LettersFirst(FromBits(group), Groups(left));
    Regroup(output, [Letter(FromBits(group))], Letters(Groups(left)));
  }

  lemma ShiftLeftBits(value: Word, bits: nat, k: nat)
    requires bits + k == 5
    ensures ToBits(value * Pow2(k), 5) == ToBits(value, bits) + Zeros(k)
  {
    AppendBits(value, bits, 0, k);
    assert value * Pow2(k) + 0 == value * Pow2(k);
  }

  lemma LastBits(value: Word, bits: nat)
    requires 0 < bits < 5
    ensures FromBits(ToBits(value, bits) + Zeros(5 - bits)) == PaddedGroup(value, 5 - bits)
  {
    var shifted: nat := value * Pow2(5 - bits);
    ShiftLeftBits(value, bits, 5 - bits);
    Pow2OfWord();
    WrapKeepsLowBits(shifted, 5, 32);
    GroupOfBits(shifted % 0x1_0000_0000);
  }

  lemma PartialGroup(value: Word, bits: nat)
    requires 0 < bits < 5
    ensures Groups(ToBits(value, bits)) == [PaddedGroup(value, 5 - bits)]
  {
    LastBits(value, bits);
  }

  lemma OneLetter(group: nat)
    ensures Letters([group]) == [Letter(group)]
  {
  }

  lemma LastGroup(output: string, value: Word, bits: nat, goal: string)
    requires bits < 5 && Owing(output, ToBits(value, bits), [], goal)
    ensures goal == output + if bits == 0 then "" else [ALPHABET[PaddedGroup(value, 5 - bits)]]
  {
    assert ToBits(value, bits) + [] == ToBits(value, bits);
    if bits > 0 {
      PartialGroup(value, bits);
      OneLetter(PaddedGroup(value, 5 - bits));
    }
  }

  method EncodeBuffer(buffer: seq<Byte>) returns (output: string)
    ensures output == Encode(buffer)
  {
    var bits: nat := 0;
    var value: Word := 0;
    output := "";
    Start(buffer);
    for i := 0 to |buffer|
      invariant bits < 5
      invariant Owing(output, ToBits(value, bits), BitStream(buffer[i..]), Encode(buffer))
    {
      ghost var rest := BitStream(buffer[i + 1..]);
      assert buffer[i..][1..] == buffer[i + 1..];
      TakeByte(output, ToBits(value, bits), ToBits(buffer[i], 8), rest, Encode(buffer));
      PushByteBits(value, bits, buffer[i]);
      value := PushByte(value, buffer[i]);
      bits := bits + 8;
      while bits >= 5
        invariant Owing(output, ToBits(value, bits), rest, Encode(buffer))
      {
        ShiftOut(value, bits);
        Emit(output, ToBits(value, bits)[..5], ToBits(value, bits - 5), rest, Encode(buffer));
        output := output + [ALPHABET[GroupAt(value, bits - 5)]];
        bits := bits - 5;
      }
    }
    LastGroup(output, value, bits, Encode(buffer));
    if bits > 0 {
      output := output + [ALPHABET[PaddedGroup(value, 5 - bits)]];
    }
  }
}
