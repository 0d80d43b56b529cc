/**
  Rewriting the SDP answer for DTLS-SRTP. The first audio section gets the DTLS profile,
  loses every attribute that the bridge itself decides, and gains the bridge's own. The
  filter writes into the array it is reading; appending writes there too, or moves to a
  larger array.
*/
module SdpAnswer {
  import opened Prelude
  import opened Text

  datatype Attribute = Attribute(key: string, value: string)
  datatype Ice = Ice(ufrag: string, pwd: string)
  /** The answer's connection address: absent, unreadable, or an address in its canonical text. */
  datatype Address = Missing | Invalid | Ip(text: string)
  datatype Config = Config(fingerprint: string, setup: string, ice: Option<Ice>)
  datatype Error = NoAudio | NoAddress | BadAddress

  const DTLS_PROTOS := ["UDP", "TLS", "RTP", "SAVPF"]

  predicate Owned(a: Attribute) {
    a.key == "crypto" || a.key == "fingerprint" || a.key == "setup" || a.key == "rtcp-mux"
  }

  function Kept(s: seq<Attribute>): (r: seq<Attribute>)
    ensures |r| <= |s|
  {
    if s == [] then []
    else Kept(s[..|s|-1]) + if Owned(s[|s|-1]) then [] else [s[|s|-1]]
  }

  lemma {:induction false} KeptTake(s: seq<Attribute>, i: nat)
    requires i < |s|
    ensures Kept(s[..i+1]) == Kept(s[..i]) + if Owned(s[i]) then [] else [s[i]]
  {
    assert s[..i+1][..i] == s[..i];
  }

  /** Of the first i elements of `was` those kept stand at the front of s, and the rest are still in place. */
  predicate Compacted(s: seq<Attribute>, was: seq<Attribute>, k: nat, i: nat) {
    && k <= i <= |was| <= |s| && s[..k] == Kept(was[..i])
    && forall j | i <= j < |was| :: s[j] == was[j]
  }

  lemma {:induction false} CompactStep(s: seq<Attribute>, was: seq<Attribute>, k: nat, i: nat)
    requires Compacted(s, was, k, i) && i < |was|
    ensures s[i] == was[i]
    ensures if Owned(s[i]) then Compacted(s, was, k, i + 1) else Compacted(s[k := s[i]], was, k + 1, i + 1)
  {
    KeptTake(was, i);
    assert s[k := s[i]][..k+1] == s[..k] + [s[i]];
  }

  function DtlsAttributes(d: Config): seq<Attribute> {
    [Attribute("fingerprint", "sha-256 " + d.fingerprint), Attribute("setup", d.setup), Attribute("rtcp-mux", "")]
  }

  function IceAttributes(ice: Ice, ip: string, port: nat): seq<Attribute> {
    [Attribute("ice-ufrag", ice.ufrag), Attribute("ice-pwd", ice.pwd),
     Attribute("candidate", "1 1 udp 2130706431 " + ip + " " + Decimal(port % 0x1_0000) + " typ host")]
  }

  function IcePart(d: Config, address: Address, port: nat): seq<Attribute> {
    if d.ice.Some? && address.Ip? then IceAttributes(d.ice.value, address.text, port) else []
  }

  /** The address the ICE agent will listen on, stored in its configuration for a later check. */
  datatype Local = Local(ip: string, port: nat)

  function LocalOf(d: Config, address: Address, port: nat): Option<Local> {
    if d.ice.Some? && address.Ip? then Some(Local(address.text, port % 0x1_0000)) else None
  }

  /** The attributes of the audio section afterwards. An address error leaves the DTLS part in place. */
  function Answered(s: seq<Attribute>, d: Config, address: Address, port: nat): seq<Attribute> {
    Kept(s) + DtlsAttributes(d) + IcePart(d, address, port)
  }

  class Media {
    const kind: string
    const port: nat
    var protos: seq<string>
    var store: array<Attribute>
    var len: nat

    constructor (k: string, p: nat, ps: seq<string>, capacity: nat)
      ensures Valid() && kind == k && port == p && protos == ps && Attributes() == [] && fresh(store)
    {
      kind, port, protos, len := k, p, ps, 0;
      store := new Attribute[capacity](_ => Attribute("", ""));
    }

    ghost predicate Valid()
      reads this
    {
      len <= store.Length
    }

    ghost function Attributes(): seq<Attribute>
      requires Valid()
      reads this, store
    {
      store[..len]
    }

    /** Drops the owned attributes, compacting the array front to back while it is being read. */
    method DropOwned()
      requires Valid()
      modifies this`len, store
      ensures Valid() && Attributes() == Kept(old(Attributes()))
    {
      var k := 0;
      ghost var was := store[..len];
      for i := 0 to len
        modifies store
        invariant Compacted(store[..], was, k, i)
      {
        var a := store[i];
        ghost var s := store[..];
        CompactStep(s, was, k, i);
        if !Owned(a) {
          store[k] := a;
          assert store[..] == s[k := a];
          k := k + 1;
        }
      }
      assert was[..len] == was;
      len := k;
    }

    /** Appends in place where there is room, else into a larger array. */
    method Append(a: Attribute)
      requires Valid()
      modifies this`len, this`store, store
      ensures Valid() && Attributes() == old(Attributes()) + [a]
      ensures store == old(store) || fresh(store)
    {
      if len == store.Length {
        var grown := new Attribute[2 * len + 1](_ => a);
        for i := 0 to len
          invariant len == old(len) && store == old(store) && store.Length == len && unchanged(store)
          invariant forall j | 0 <= j < i :: grown[j] == store[j]
        {
          grown[i] := store[i];
        }
        store := grown;
      }
      store[len] := a;
      len := len + 1;
    }

    method AppendAll(s: seq<Attribute>)
      requires Valid()
      modifies this`len, this`store, store
      ensures Valid() && Attributes() == old(Attributes()) + s
      ensures store == old(store) || fresh(store)
    {
      for i := 0 to |s|
        invariant Valid() && (store == old(store) || fresh(store))
        invariant Attributes() == old(Attributes()) + s[..i]
      {
        Append(s[i]);
        assert s[..i+1] == s[..i] + [s[i]];
      }
      assert s[..|s|] == s;
    }

    /** The rewrite of one audio section. */
    method Rewrite(d: Config, address: Address) returns (error: Option<Error>, local: Option<Local>)
      requires Valid()
      modifies this`protos, this`len, this`store, store
      ensures Valid() && protos == DTLS_PROTOS && Attributes() == Answered(old(Attributes()), d, address, port)
      ensures error == if d.ice.None? || address.Ip? then None
                       else Some(if address.Missing? then NoAddress else BadAddress)
      ensures local == LocalOf(d, address, port)
      ensures store == old(store) || fresh(store)
    {
      protos := DTLS_PROTOS;
      DropOwned();
      AppendAll(DtlsAttributes(d));
      error, local := None, None;
      if d.ice.Some? {
        if !address.Ip? {
          return Some(if address.Missing? then NoAddress else BadAddress), None;
        }
        local := Some(Local(address.text, port % 0x1_0000));
        AppendAll(IceAttributes(d.ice.value, address.text, port));
      }
    }
  }

  /** Sections of one answer do not share storage. */
  ghost predicate Separate(ms: seq<Media>)
    reads set m | m in ms
  {
    && (forall m | m in ms :: m.Valid())
    && (forall i, j | 0 <= i < j < |ms| :: ms[i] != ms[j] && ms[i].store != ms[j].store)
  }

  /** Rewrites the first audio section and no other; an answer without one is refused untouched. */
  method AddDTLSAnswer(ms: seq<Media>, address: Address, d: Config)
    returns (error: Option<Error>, local: Option<Local>, ghost at: nat)
    requires Separate(ms)
    modifies set m | m in ms, set m | m in ms :: m.store
    ensures Separate(ms)
    ensures at <= |ms| && forall j | 0 <= j < at :: ms[j].kind != "audio"
    ensures forall j | 0 <= j < |ms| && j != at :: unchanged(ms[j]) && unchanged(old(ms[j].store))
    ensures at == |ms| <==> error == Some(NoAudio)
    ensures at < |ms| ==>
              && ms[at].kind == "audio" && ms[at].protos == DTLS_PROTOS
              && ms[at].Attributes() == Answered(old(ms[at].Attributes()), d, address, ms[at].port)
              && (error.None? <==> d.ice.None? || address.Ip?)
              && local == LocalOf(d, address, ms[at].port)
  {
    for i := 0 to |ms|
      invariant forall j | 0 <= j < i :: ms[j].kind != "audio"
      invariant forall j | 0 <= j < |ms| :: unchanged(ms[j]) && unchanged(ms[j].store)
    {
      if ms[i].kind == "audio" {
        error, local := ms[i].Rewrite(d, address);
        at := i;
        return;
      }
    }
    return Some(NoAudio), None, |ms|;
  }

  lemma {:induction false} KeptConcat(a: seq<Attribute>, b: seq<Attribute>)
    ensures Kept(a + b) == Kept(a) + Kept(b)
  {
    if b == [] {
      assert a + b == a;
    } else {
      KeptConcat(a, b[..|b|-1]);
      assert (a + b)[..|a + b|-1] == a + b[..|b|-1];
    }
  }

  lemma {:induction false} KeptOnce(s: seq<Attribute>)
    ensures Kept(Kept(s)) == Kept(s)
  {
    if s != [] {
      var t := s[..|s|-1];
      KeptOnce(t);
      KeptConcat(Kept(t), if Owned(s[|s|-1]) then [] else [s[|s|-1]]);
    }
  }

  /** Filtering takes the owned attributes out and leaves every other as often as it was. */
  lemma {:induction false} KeptCounts(s: seq<Attribute>, a: Attribute)
    ensures multiset(Kept(s))[a] == if Owned(a) then 0 else multiset(s)[a]
  {
    if s != [] {
      var t := s[..|s|-1];
      assert s == t + [s[|s|-1]];
      KeptCounts(t, a);
    }
  }

  /** The attributes that satisfy p, in order. */
  function Select(s: seq<Attribute>, p: Attribute -> bool): seq<Attribute> {
    if s == [] then [] else Select(s[..|s|-1], p) + if p(s[|s|-1]) then [s[|s|-1]] else []
  }

  lemma {:induction false} SelectConcat(a: seq<Attribute>, b: seq<Attribute>, p: Attribute -> bool)
    ensures Select(a + b, p) == Select(a, p) + Select(b, p)
  {
    if b == [] {
      assert a + b == a;
    } else {
      SelectConcat(a, b[..|b|-1], p);
      assert (a + b)[..|a + b|-1] == a + b[..|b|-1];
    }
  }

  lemma SelectOne(x: Attribute, p: Attribute -> bool)
    ensures Select([x], p) == if p(x) then [x] else []
  {
    assert [x][..0] == [];
  }

  function HasKey(key: string): Attribute -> bool {
    (a: Attribute) => a.key == key
  }

  function Keyed(s: seq<Attribute>, key: string): seq<Attribute> {
    Select(s, HasKey(key))
  }

  lemma KeyedConcat(a: seq<Attribute>, b: seq<Attribute>, key: string)
    ensures Keyed(a + b, key) == Keyed(a, key) + Keyed(b, key)
  {
    SelectConcat(a, b, HasKey(key));
  }

  lemma {:induction false} KeptHasNone(s: seq<Attribute>, key: string)
    requires Owned(Attribute(key, ""))
    ensures Keyed(Kept(s), key) == []
  {
    if s != [] {
      KeptHasNone(s[..|s|-1], key);
      KeyedConcat(Kept(s[..|s|-1]), if Owned(s[|s|-1]) then [] else [s[|s|-1]], key);
      SelectOne(s[|s|-1], HasKey(key));
    }
  }

  lemma KeyedThree(x: Attribute, y: Attribute, z: Attribute, key: string)
    ensures Keyed([x, y, z], key) ==
            (if x.key == key then [x] else []) + (if y.key == key then [y] else []) + (if z.key == key then [z] else [])
  {
    var p := HasKey(key);
    assert [x, y, z] == [x] + [y] + [z];
    SelectConcat([x] + [y], [z], p);
    SelectConcat([x], [y], p);
    SelectOne(x, p);
    SelectOne(y, p);
    SelectOne(z, p);
  }

  lemma KeptThree(x: Attribute, y: Attribute, z: Attribute)
    requires Owned(x) == Owned(y) == Owned(z)
    ensures Kept([x, y, z]) == if Owned(x) then [] else [x, y, z]
  {
    assert [x, y, z][..2] == [x, y] && [x, y][..1] == [x] && [x][..0] == [];
    assert Kept([x]) == if Owned(x) then [] else [x];
    assert Kept([x, y]) == if Owned(x) then [] else [x, y];
  }

  lemma KeptOfAdded(d: Config, address: Address, port: nat)
    ensures Kept(DtlsAttributes(d)) == []
    ensures Kept(IcePart(d, address, port)) == IcePart(d, address, port)
  {
    var x, ice := DtlsAttributes(d), IcePart(d, address, port);
    KeptThree(x[0], x[1], x[2]);
    if ice != [] {
      KeptThree(ice[0], ice[1], ice[2]);
    }
  }

  /** No key of the offer survives for what the bridge decides: one fingerprint, one role, one rtcp-mux, no SDES key. */
  lemma OneOfEach(s: seq<Attribute>, d: Config, address: Address, port: nat)
    ensures var r := Answered(s, d, address, port);
            && Keyed(r, "fingerprint") == [Attribute("fingerprint", "sha-256 " + d.fingerprint)]
            && Keyed(r, "setup") == [Attribute("setup", d.setup)]
            && Keyed(r, "rtcp-mux") == [Attribute("rtcp-mux", "")]
            && Keyed(r, "crypto") == []
  {
    OwnedKey(s, d, address, port, "fingerprint");
    OwnedKey(s, d, address, port, "setup");
    OwnedKey(s, d, address, port, "rtcp-mux");
    OwnedKey(s, d, address, port, "crypto");
    var x := DtlsAttributes(d);
    KeyedThree(x[0], x[1], x[2], "fingerprint");
    KeyedThree(x[0], x[1], x[2], "setup");
    KeyedThree(x[0], x[1], x[2], "rtcp-mux");
    KeyedThree(x[0], x[1], x[2], "crypto");
  }

  lemma OwnedKey(s: seq<Attribute>, d: Config, address: Address, port: nat, key: string)
    requires Owned(Attribute(key, ""))
    ensures Keyed(Answered(s, d, address, port), key) == Keyed(DtlsAttributes(d), key)
  {
    var ice := IcePart(d, address, port);
    KeptHasNone(s, key);
    IceIsForeign(d, address, port, key);
    KeyedConcat(Kept(s), DtlsAttributes(d), key);
    KeyedConcat(Kept(s) + DtlsAttributes(d), ice, key);
  }

  lemma IceIsForeign(d: Config, address: Address, port: nat, key: string)
    requires Owned(Attribute(key, ""))
    ensures Keyed(IcePart(d, address, port), key) == []
  {
    var ice := IcePart(d, address, port);
    if ice != [] {
      KeyedThree(ice[0], ice[1], ice[2], key);
    }
  }

  /** Every attribute the bridge does not decide stays, in its order, before what the bridge adds. */
  lemma OthersKept(s: seq<Attribute>, d: Config, address: Address, port: nat)
    ensures Kept(Answered(s, d, address, port)) == Kept(s) + IcePart(d, address, port)
  {
    var x, ice := DtlsAttributes(d), IcePart(d, address, port);
    KeptOnce(s);
    KeptOfAdded(d, address, port);
    KeptConcat(Kept(s), x);
    KeptConcat(Kept(s) + x, ice);
    assert Kept(s) + [] == Kept(s);
  }

  /** Rewriting twice changes nothing exactly when no ICE attributes are added: those are not replaced but repeated. */
  lemma TwiceIsOnceExactlyWithoutIce(s: seq<Attribute>, d: Config, address: Address, port: nat)
    ensures var r := Answered(s, d, address, port);
            Answered(r, d, address, port) == r <==> d.ice.None? || !address.Ip?
  {
    OthersKept(s, d, address, port);
    var r, ice := Answered(s, d, address, port), IcePart(d, address, port);
    assert Answered(r, d, address, port) == Kept(s) + ice + DtlsAttributes(d) + ice;
    if ice == [] {
      assert Kept(s) + ice == Kept(s);
    } else {
      assert |Answered(r, d, address, port)| == |r| + 3;
    }
  }

  /** With ICE the section ends in our credentials and one host candidate, at the port as 16 bits. */
  lemma IceTail(s: seq<Attribute>, d: Config, address: Address, port: nat)
    requires d.ice.Some? && address.Ip? && port < 0x1_0000
    ensures var r := Answered(s, d, address, port);
            && |r| >= 6
            && r[|r|-3] == Attribute("ice-ufrag", d.ice.value.ufrag)
            && r[|r|-2] == Attribute("ice-pwd", d.ice.value.pwd)
            && r[|r|-1].key == "candidate"
            && r[|r|-1].value == "1 1 udp 2130706431 " + address.text + " " + Decimal(port) + " typ host"
  {
    assert port % 0x1_0000 == port;
  }
}
