/**
  Re-framing PCM into fixed-size Opus frames. The codec and the writer below it are an
  environment that may refuse a frame; what the model tracks is which samples each
  attempted frame consists of.
*/
module OpusEncoder {
  const MAX_LOGGED_ERRORS := 5

  function Flatten(fs: seq<seq<int>>): seq<int> {
    if fs == [] then [] else Flatten(fs[..|fs|-1]) + fs[|fs|-1]
  }

  /**
    The error count after `tries` attempts of one call, the last of them refused by the codec or not. Each frame the
    codec takes resets it, and it stops at the number of errors that are logged.
  */
  function ErrorsAfter(before: nat, tries: nat, refused: bool): nat {
    if !refused then if tries == 0 then before else 0
    else if tries > 1 then 1
    else if before < MAX_LOGGED_ERRORS then before + 1
    else before
  }

  /** Cutting one frame off the front of the buffer loses nothing. */
  lemma CutFrame(fs: seq<seq<int>>, buf: seq<int>, n: nat)
    requires n <= |buf|
    ensures Flatten(fs + [buf[..n]]) + buf[n..] == Flatten(fs) + buf
  {
    assert (fs + [buf[..n]])[..|fs|] == fs;
  }

  class Encoder {
    const samples: nat                    // samples per frame
    var store: array<int>                 // inbuf is its first len elements
    var len: nat
    var successiveErrorCount: nat
    ghost var total: seq<int>             // everything written to the encoder so far
    ghost var attempted: seq<seq<int>>    // the frames handed to the codec by WriteSample
    ghost var flushed: seq<seq<int>>      // the frames handed to it by Close

    ghost predicate Shaped()
      reads `store, `len
    {
      samples > 0 && len <= store.Length
    }

    ghost function Inbuf(): seq<int>
      requires Shaped()
      reads `store, `len, store
    {
      store[..len]
    }

    ghost predicate Valid()
      reads `store, `len, `total, `attempted, `flushed, store
    {
      && Shaped()
      && Flatten(attempted) + Inbuf() == total
      && (forall k | 0 <= k < |attempted| :: |attempted[k]| == samples)
      && (forall k | 0 <= k < |flushed| :: flushed[k] != [])
    }

    constructor (n: nat)
      requires n > 0
      ensures Valid() && samples == n && fresh(store)
      ensures total == [] && attempted == [] && flushed == [] && Inbuf() == []
    {
      samples, len, successiveErrorCount, total, attempted, flushed := n, 0, 0, [], [], [];
      store := new int[0];
    }

    /** Makes room, in a larger array if need be. */
    method Reserve(n: nat)
      requires Shaped()
      modifies this`store
      ensures Shaped() && Inbuf() == old(Inbuf()) && len + n <= store.Length
      ensures store == old(store) || fresh(store)
    {
      if store.Length < len + n {
        var grown := new int[2 * (len + n)];
        for i := 0 to len
          modifies grown
          invariant grown[..i] == store[..i]
        {
          grown[i] := store[i];
        }
        store := grown;
      }
    }

    /** Appends in place where there is room, else into a larger array. */
    method Append(input: seq<int>)
      requires Shaped()
      modifies this`store, this`len, store
      ensures Shaped() && Inbuf() == old(Inbuf()) + input
      ensures store == old(store) || fresh(store)
    {
      Reserve(|input|);
      ghost var was := Inbuf();
      for i := 0 to |input|
        modifies store
        invariant store[..len + i] == was + input[..i]
      {
        store[len + i] := input[i];
      }
      assert input[..|input|] == input;
      len := len + |input|;
    }

    method Feed(input: seq<int>)
      requires Valid()
      modifies this`store, this`len, this`total, store
      ensures Valid() && total == old(total) + input
      ensures store == old(store) || fresh(store)
    {
      Append(input);
      total := total + input;
      assert Flatten(attempted) + Inbuf() == total;
    }

    /** Moves what follows the first frame to the front of the array. */
    method Shift()
      requires Shaped() && samples <= len
      modifies this`len, store
      ensures Shaped() && Inbuf() == old(Inbuf())[samples..] && len == old(len) - samples
    {
      ghost var was := store[..len];
      for i := 0 to len - samples
        modifies store
        invariant forall j | 0 <= j < i :: store[j] == was[j + samples]
        invariant forall j | i <= j < len :: store[j] == was[j]
      {
        store[i] := store[i + samples];
      }
      len := len - samples;
    }

    /** Takes the first frame off the buffer for the codec; it is gone whatever becomes of it. */
    method TakeFrame()
      requires Valid() && samples <= len
      modifies this`len, this`attempted, store
      ensures Valid() && len == old(len) - samples
      ensures attempted == old(attempted) + [old(Inbuf())[..samples]]
    {
      CutFrame(attempted, Inbuf(), samples);
      ghost var frame := Inbuf()[..samples];
      Shift();
      attempted := attempted + [frame];
    }

    /** Notes whether the codec took the frame. */
    method CountError(refused: bool)
      modifies `successiveErrorCount
      ensures successiveErrorCount == ErrorsAfter(old(successiveErrorCount), 1, refused)
    {
      if !refused {
        successiveErrorCount := 0;
      } else if successiveErrorCount < MAX_LOGGED_ERRORS {
        successiveErrorCount := successiveErrorCount + 1;
      }
    }

    /**
      The frame loop stops at the first refused frame: attempt number `refuse` of this call (counted from 0),
      refused by the codec or by the writer. A refused frame is consumed like any other.
    */
    method WriteSample(input: seq<int>, refuse: nat, byCodec: bool) returns (ok: bool)
      requires Valid()
      modifies this, store
      ensures Valid() && total == old(total) + input && flushed == old(flushed)
      ensures old(attempted) <= attempted && (store == old(store) || fresh(store))
      ensures ok ==> |Inbuf()| < samples && |attempted| - |old(attempted)| <= refuse
      ensures !ok ==> |attempted| - |old(attempted)| == refuse + 1
      ensures successiveErrorCount ==
              ErrorsAfter(old(successiveErrorCount), |attempted| - |old(attempted)|, !ok && byCodec)
    {
      Feed(input);
      var tries := 0;
      while len >= samples
        invariant Valid() && total == old(total) + input && flushed == old(flushed)
        invariant store == old(store) || fresh(store)
        invariant old(attempted) <= attempted && |attempted| == |old(attempted)| + tries && tries <= refuse
        invariant successiveErrorCount == ErrorsAfter(old(successiveErrorCount), tries, false)
        decreases len
      {
        TakeFrame();
        CountError(tries == refuse && byCodec);
        if tries == refuse { return false; }
        tries := tries + 1;
      }
      return true;
    }

    /**
      Hands whatever is left to the codec as one short frame. The buffer is not emptied, so the frames account for
      the input exactly if nothing had been flushed before.
    */
    method Close(encodeOk: bool, writeOk: bool, closeOk: bool) returns (ok: bool)
      requires Valid()
      modifies this`flushed
      ensures Valid() && flushed == old(flushed) + if Inbuf() == [] then [] else [Inbuf()]
      ensures ok <==> (Inbuf() == [] || (encodeOk && writeOk)) && closeOk
      ensures Flatten(attempted) + Flatten(flushed) == total <==> old(flushed) == []
    {
      var flushOk := true;
      FlushAccounts(flushed, Inbuf());
      if len > 0 {
        flushed := flushed + [Inbuf()];
        flushOk := encodeOk && writeOk;
      }
      ok := flushOk && closeOk;
    }
  }

  lemma {:induction false} FlattenNonEmpty(fs: seq<seq<int>>)
    requires fs != [] && forall k | 0 <= k < |fs| :: fs[k] != []
    ensures Flatten(fs) != []
  {
  }

  /** One more flush accounts for the buffer exactly if it is the first. */
  lemma {:induction false} FlushAccounts(fs: seq<seq<int>>, buf: seq<int>)
    requires forall k | 0 <= k < |fs| :: fs[k] != []
    ensures Flatten(fs + if buf == [] then [] else [buf]) == buf <==> fs == []
  {
    if fs != [] { FlattenNonEmpty(fs); }
    if buf == [] {
      assert fs + [] == fs;
    } else {
      assert (fs + [buf])[..|fs|] == fs;
      assert Flatten(fs + [buf]) == Flatten(fs) + buf;
    }
  }

  /** The first frame of a framing is the first piece of the samples. */
  lemma {:induction false} FlattenHead(fs: seq<seq<int>>)
    requires fs != []
    ensures Flatten(fs) == fs[0] + Flatten(fs[1..])
  {
    if |fs| > 1 {
      FlattenHead(fs[..|fs|-1]);
      assert fs[1..][..|fs[1..]|-1] == fs[..|fs|-1][1..];
    }
  }

  /**
    However the same samples were cut into writes, and wherever writes were refused, the frames attempted are the
    same: the shorter list is a prefix of the longer one.
  */
  lemma {:induction false} FramingIgnoresChunking(a: seq<seq<int>>, r: seq<int>, b: seq<seq<int>>, q: seq<int>,
                                                  samples: nat)
    requires samples > 0 && Flatten(a) + r == Flatten(b) + q && |a| <= |b|
    requires forall k | 0 <= k < |a| :: |a[k]| == samples
    requires forall k | 0 <= k < |b| :: |b[k]| == samples
    ensures a <= b
    ensures |r| < samples ==> a == b && r == q
  {
    if a == [] {
      assert Flatten(a) + r == r;
      if b == [] {
        assert Flatten(b) + q == q;
      } else {
        FlattenHead(b);
        assert |Flatten(b) + q| >= samples;
      }
    } else {
      FlattenHead(a);
      FlattenHead(b);
      var t := Flatten(a) + r;
      assert a[0] == t[..samples] == b[0];
      assert Flatten(a[1..]) + r == t[samples..] == Flatten(b[1..]) + q;
      FramingIgnoresChunking(a[1..], r, b[1..], q, samples);
      assert a == [a[0]] + a[1..] && b == [b[0]] + b[1..];
    }
  }

  /**
    Two encoders of one frame size that were fed the same samples agree, and once both have caught up they are equal.
  */
  lemma EncodersAgree(a: Encoder, b: Encoder)
    requires a.Valid() && b.Valid() && a.samples == b.samples && a.total == b.total && |a.attempted| <= |b.attempted|
    ensures a.attempted <= b.attempted
    ensures |a.Inbuf()| < a.samples ==> a.attempted == b.attempted && a.Inbuf() == b.Inbuf()
  {
    FramingIgnoresChunking(a.attempted, a.Inbuf(), b.attempted, b.Inbuf(), a.samples);
  }
}
