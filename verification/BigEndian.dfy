/** Unsigned numbers as a fixed count of bytes, and lists of byte strings behind length prefixes. */
module BigEndian {
  import opened Utf8

  function Capacity(width: nat): nat {
    if width == 0 then 1 else 256 * Capacity(width - 1)
  }

  function Pack(n: nat, width: nat): (bytes: seq<byte>)
    ensures |bytes| == width
  {
    if width == 0 then [] else Pack(n / 256, width - 1) + [(n % 256) as byte]
  }

  function Unpack(bytes: seq<byte>): nat {
    if bytes == [] then 0 else Unpack(bytes[..|bytes| - 1]) * 256 + bytes[|bytes| - 1] as nat
  }

  lemma {:induction false} UnpackPacked(n: nat, width: nat)
    requires n < Capacity(width)
    ensures Unpack(Pack(n, width)) == n
  {
    if width > 0 {
      UnpackPacked(n / 256, width - 1);
      assert Pack(n, width)[..width - 1] == Pack(n / 256, width - 1);
    }
  }

  lemma {:induction false} PackUnpacked(bytes: seq<byte>)
    ensures Unpack(bytes) < Capacity(|bytes|) && Pack(Unpack(bytes), |bytes|) == bytes
  {
    if bytes != [] {
      PackUnpacked(bytes[..|bytes| - 1]);
      assert bytes == bytes[..|bytes| - 1] + [bytes[|bytes| - 1]];
    }
  }

  /** The first byte is the most significant one. */
  lemma {:induction false} FirstByteWeighsMost(bytes: seq<byte>)
    requires bytes != []
    ensures Unpack(bytes) == bytes[0] as nat * Capacity(|bytes| - 1) + Unpack(bytes[1..])
    decreases |bytes|
  {
    var front, last := bytes[..|bytes| - 1], bytes[|bytes| - 1];
    if front != [] {
      FirstByteWeighsMost(front);
      assert bytes[1..][..|bytes| - 2] == front[1..];
      var c := Capacity(|bytes| - 2);
      assert (bytes[0] as nat * c + Unpack(front[1..])) * 256 == bytes[0] as nat * (256 * c) + Unpack(front[1..]) * 256;
    } else {
      assert Unpack(front) == 0 && Unpack(bytes[1..]) == 0 && Capacity(0) == 1;
    }
  }

  lemma Capacities()
    ensures Capacity(4) == 0x1_0000_0000 && Capacity(8) == 0x1_0000_0000_0000_0000
  {
    assert Capacity(1) == 0x100 && Capacity(2) == 0x1_0000 && Capacity(3) == 0x100_0000;
    assert Capacity(5) == 0x100_0000_0000 && Capacity(6) == 0x1_0000_0000_0000 && Capacity(7) == 0x100_0000_0000_0000;
  }

  // ----- the pre-image of a revision digest -----

  const PREFIX_BYTES := 8

  /** What `_revision_digest` hashes: each encoded record behind its length in eight bytes. */
  function PreImage(records: seq<seq<byte>>): seq<byte> {
    if records == [] then []
    else Pack(|records[0]|, PREFIX_BYTES) + records[0] + PreImage(records[1..])
  }

  predicate ShortRecords(records: seq<seq<byte>>) {
    forall i | 0 <= i < |records| :: |records[i]| < Capacity(PREFIX_BYTES)
  }

  lemma Parts(a: seq<byte>, b: seq<byte>, c: seq<byte>)
    ensures var s := a + b + c; s[..|a|] == a && s[|a|..|a| + |b|] == b && s[|a| + |b|..] == c
  {
  }

  lemma FirstRecord(record: seq<byte>, rest: seq<byte>)
    requires |record| < Capacity(PREFIX_BYTES)
    ensures var image := Pack(|record|, PREFIX_BYTES) + record + rest;
      && Unpack(image[..PREFIX_BYTES]) == |record|
      && image[PREFIX_BYTES..PREFIX_BYTES + |record|] == record
      && image[PREFIX_BYTES + |record|..] == rest
  {
    var prefix := Pack(|record|, PREFIX_BYTES);
    assert |prefix| == PREFIX_BYTES;
    UnpackPacked(|record|, PREFIX_BYTES);
    Parts(prefix, record, rest);
    hide Pack, Unpack, Capacity;
  }

  /** The pre-image determines the list of records: equal pre-images come from equal lists. */
  lemma {:induction false} PreImageIsInjective(a: seq<seq<byte>>, b: seq<seq<byte>>)
    requires ShortRecords(a) && ShortRecords(b) && PreImage(a) == PreImage(b)
    ensures a == b
  {
    if a != [] && b != [] {
      FirstRecord(a[0], PreImage(a[1..]));
      FirstRecord(b[0], PreImage(b[1..]));
      PreImageIsInjective(a[1..], b[1..]);
      assert a == [a[0]] + a[1..] && b == [b[0]] + b[1..];
    }
  }
}
