/** The pool of AAA addresses (adapter/ph/src/address_pool.rs). */
module AddressPool {
  import opened Bytes
  import opened Classifier

  /** The largest 40-bit id. */
  const MAX_AAA_ID: nat := 0xff_ffff_ffff

  const ID_COUNT: nat := 0x100_0000_0000

  /** The low 40 bits of the address are the id; the rest is the network's. */
  function Encode(base: Address, id: nat): Address
    requires id < ID_COUNT
  {
    base[..11] +
    [id / 0x1_0000_0000, id / 0x100_0000 % 0x100, id / 0x1_0000 % 0x100, id / 0x100 % 0x100, id % 0x100]
  }

  function Decode(a: Address): (id: nat)
    ensures id < ID_COUNT
  {
    a[11] as int * 0x1_0000_0000 + a[12] as int * 0x100_0000 + a[13] as int * 0x1_0000
    + a[14] as int * 0x100 + a[15] as int
  }

  predicate IsAaa(a: Address) {
    a[6] == 0x0a && a[7] == 0xaa
  }

  lemma DecodeEncode(base: Address, id: nat)
    requires id < ID_COUNT
    ensures Decode(Encode(base, id)) == id
  {
    var a := id / 0x100;
    var b := a / 0x100;
    var c := b / 0x100;
    assert id / 0x1_0000 == b && id / 0x100_0000 == c && id / 0x1_0000_0000 == c / 0x100;
  }

  /** Every pool address keeps the network's first 88 bits, the AAA mark among them. */
  lemma InNetwork(base: Address, id: nat)
    requires id < ID_COUNT
    ensures Encode(base, id)[..11] == base[..11]
    ensures IsAaa(Encode(base, id)) <==> IsAaa(base)
  {
    assert Encode(base, id)[..11] == base[..11];
    assert Encode(base, id)[6] == Encode(base, id)[..11][6] && Encode(base, id)[7] == Encode(base, id)[..11][7];
    assert base[6] == base[..11][6] && base[7] == base[..11][7];
  }

  /** An address as a number, most significant byte first. */
  function Number(a: seq<byte>): nat {
    if a == [] then 0 else Number(a[..|a| - 1]) * 0x100 + a[|a| - 1] as nat
  }

  lemma NumberStep(a: seq<byte>, x: byte)
    ensures Number(a + [x]) == Number(a) * 0x100 + x as nat
  {
    assert (a + [x])[..|a|] == a;
  }

  /** The addresses of a pool are its network's, counted up by the id; and the mark is a word of its own. */
  lemma EncodeCountsUp(base: Address, id: nat)
    requires id < ID_COUNT
    ensures Number(Encode(base, id)) == Number(base[..11]) * ID_COUNT + id
    ensures IsAaa(base) <==> Word(base, 6) == 0x0aaa
  {
    var a := id / 0x100;
    var b := a / 0x100;
    var c := b / 0x100;
    var d := c / 0x100;
    assert id / 0x1_0000 == b && id / 0x100_0000 == c && id / 0x1_0000_0000 == d;
    var n := base[..11];
    NumberStep(n, d);
    NumberStep(n + [d], c % 0x100);
    NumberStep(n + [d] + [c % 0x100], b % 0x100);
    NumberStep(n + [d] + [c % 0x100] + [b % 0x100], a % 0x100);
    NumberStep(n + [d] + [c % 0x100] + [b % 0x100] + [a % 0x100], id % 0x100);
    assert Encode(base, id) == n + [d] + [c % 0x100] + [b % 0x100] + [a % 0x100] + [id % 0x100];
  }

  /** The `k`-th id tried. */
  function Probe(random: nat, k: nat): (id: nat)
    ensures id < ID_COUNT
  {
    if k == 0 then random % ID_COUNT else (Probe(random, k - 1) + 1) % MAX_AAA_ID
  }

  datatype ReleaseResult = Released | InvalidAddress

  /** What releasing an address makes of the active set. */
  function AfterRelease(active: set<nat>, a: Address): set<nat> {
    if IsAaa(a) then active - {Decode(a)} else active
  }

  class Pool {
    const base: Address
    var active: set<nat>

    constructor (base: Address)
      ensures this.base == base && active == {}
    {
      this.base := base;
      active := {};
    }

    /** A pool on a network, unless its prefix leaves no room for 40-bit ids. */
    static method New(base: Address, prefixLen: nat) returns (r: Option<Pool>)
      ensures r.Some? <==> prefixLen <= 88
      ensures r.Some? ==> fresh(r.value) && r.value.base == base && r.value.active == {}
    {
      if prefixLen > 88 {
        return None;
      }
      var pool := new Pool(base);
      return Some(pool);
    }

    /**
    Take a random free id: probe upward from the random one, modulo the largest id. The search
    ends because some id below the largest is free.
    */
    method GetAaaAddress(random: nat, ghost free: nat) returns (a: Address)
      requires free < MAX_AAA_ID && free !in active
      modifies this
      ensures Decode(a) !in old(active) && active == old(active) + {Decode(a)}
      ensures a == Encode(base, Decode(a))
      ensures random % ID_COUNT !in old(active) ==> Decode(a) == random % ID_COUNT
      ensures exists k: nat :: Probe(random, k) == Decode(a) && forall j :: 0 <= j < k ==> Probe(random, j) in old(active)
    {
      var id: nat := random % ID_COUNT;
      ghost var tries: nat := 0;
      while id in active
        invariant id == Probe(random, tries) && active == old(active)
        invariant forall j :: 0 <= j < tries ==> Probe(random, j) in active
        invariant random % ID_COUNT !in active ==> id == random % ID_COUNT
        decreases if id == MAX_AAA_ID then 2 * ID_COUNT else if id <= free then free - id else free + MAX_AAA_ID - id
      {
        id := (id + 1) % MAX_AAA_ID;
        tries := tries + 1;
      }
      active := active + {id};
      DecodeEncode(base, id);
      a := Encode(base, id);
    }

    /** Releasing what the pool handed out frees exactly that id, provided the network is AAA-marked. */
    method ReleaseAddress(a: Address) returns (r: ReleaseResult)
      modifies this
      ensures r == (if IsAaa(a) then Released else InvalidAddress)
      ensures active == AfterRelease(old(active), a)
    {
      if !IsAaa(a) {
        return InvalidAddress;
      }
      active := active - {Decode(a)};
      return Released;
    }

    method AllocateAndRelease(random: nat, ghost free: nat)
      requires free < MAX_AAA_ID && free !in active
      modifies this
      ensures active == old(active) <==> IsAaa(base)
    {
      ghost var before := active;
      var a := GetAaaAddress(random, free);
      InNetwork(base, Decode(a));
      var r := ReleaseAddress(a);
      assert IsAaa(base) ==> active == before;
      assert !IsAaa(base) ==> Decode(a) in active;
    }
  }
}
