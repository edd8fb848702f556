/** The idle loop shared by the two nRF52810 builds (controller/src/main.rs
    and receiver/src/main.rs): it drains the log queue's read grants to the
    serial port in chunks of at most 255 bytes, releases each grant whole,
    and lets the BLE responder do one unit of work when it has any. */
module LogDrain {
  import opened Hal

  /** Largest single write handed to the UARTE. */
  const SERIAL_CHUNK: nat := 255

  /** Concatenation of a sequence of byte strings. */
  function Flatten(parts: seq<seq<u8>>): seq<u8>
  {
    if parts == [] then [] else parts[0] + Flatten(parts[1..])
  }

  lemma {:induction false} FlattenAppend(a: seq<seq<u8>>, b: seq<seq<u8>>)
    ensures Flatten(a + b) == Flatten(a) + Flatten(b)
  {
    if a == [] {
      assert a + b == b;
    } else {
      assert (a + b)[0] == a[0];
      assert (a + b)[1..] == a[1..] + b;
      FlattenAppend(a[1..], b);
    }
  }

  /** `buf.chunks(n)`: consecutive pieces of `n` bytes, the last one shorter
      when `n` does not divide the length, and no piece at all for an empty
      buffer. */
  function Chunks(s: seq<u8>, n: nat): (cs: seq<seq<u8>>)
    requires n > 0
    ensures Flatten(cs) == s
    ensures forall i :: 0 <= i < |cs| ==> 0 < |cs[i]| <= n
    decreases |s|
  {
    if |s| == 0 then []
    else if |s| <= n then
      assert Flatten([s]) == s + Flatten([]);
      [s]
    else
      var rest := Chunks(s[n..], n);
      assert Flatten([s[..n]] + rest) == s[..n] + Flatten(rest);
      assert s == s[..n] + s[n..];
      [s[..n]] + rest
  }

  /** Every piece but the last is full: exactly `n` bytes. */
  lemma {:induction false} ChunksFull(s: seq<u8>, n: nat)
    requires n > 0
    ensures forall i :: 0 <= i < |Chunks(s, n)| - 1 ==> |Chunks(s, n)[i]| == n
    decreases |s|
  {
    if |s| > n {
      ChunksFull(s[n..], n);
      assert Chunks(s, n) == [s[..n]] + Chunks(s[n..], n);
    }
  }

  /** Chunking the rest of `s` from `i` starts with the piece up to `end`. */
  lemma ChunksFrom(s: seq<u8>, i: nat, end: nat)
    requires i < |s| && end == (if i + SERIAL_CHUNK <= |s| then i + SERIAL_CHUNK else |s|)
    ensures Chunks(s[i..], SERIAL_CHUNK) == [s[i..end]] + Chunks(s[end..], SERIAL_CHUNK)
  {
    assert s[i..][..end - i] == s[i..end];
    assert s[i..][end - i..] == s[end..];
  }

  /** The serial writes that draining `grants` makes, in order. */
  function DrainWrites(grants: seq<seq<u8>>): seq<seq<u8>>
  {
    if grants == [] then [] else Chunks(grants[0], SERIAL_CHUNK) + DrainWrites(grants[1..])
  }

  /** The lengths passed to `release`, one per grant. */
  function GrantLengths(grants: seq<seq<u8>>): (lens: seq<nat>)
    ensures |lens| == |grants|
    ensures forall i :: 0 <= i < |grants| ==> lens[i] == |grants[i]|
  {
    if grants == [] then [] else [|grants[0]|] + GrantLengths(grants[1..])
  }

  lemma DrainWritesStep(written: seq<seq<u8>>, grants: seq<seq<u8>>)
    requires grants != []
    ensures (written + Chunks(grants[0], SERIAL_CHUNK)) + DrainWrites(grants[1..]) == written + DrainWrites(grants)
  {
  }

  lemma GrantLengthsStep(released: seq<nat>, grants: seq<seq<u8>>)
    requires grants != []
    ensures (released + [|grants[0]|]) + GrantLengths(grants[1..]) == released + GrantLengths(grants)
  {
  }

  /** The serial line receives exactly the bytes of the grants, in order:
      chunking neither drops, duplicates nor reorders a byte. */
  lemma {:induction false} DrainWritesConcatenate(grants: seq<seq<u8>>)
    ensures Flatten(DrainWrites(grants)) == Flatten(grants)
  {
    if grants != [] {
      var c := Chunks(grants[0], SERIAL_CHUNK);
      FlattenAppend(c, DrainWrites(grants[1..]));
      DrainWritesConcatenate(grants[1..]);
    }
  }

  /** Every serial write is non-empty and at most 255 bytes long. */
  lemma {:induction false} DrainWritesBounded(grants: seq<seq<u8>>)
    ensures forall i :: 0 <= i < |DrainWrites(grants)| ==> 0 < |DrainWrites(grants)[i]| <= SERIAL_CHUNK
  {
    if grants != [] {
      DrainWritesBounded(grants[1..]);
      var c := Chunks(grants[0], SERIAL_CHUNK);
      var w := DrainWrites(grants);
      assert w == c + DrainWrites(grants[1..]);
      forall i | 0 <= i < |w|
        ensures 0 < |w[i]| <= SERIAL_CHUNK
      {
        if i >= |c| {
          assert w[i] == DrainWrites(grants[1..])[i - |c|];
        }
      }
    }
  }

  /** The state the idle loop touches: the log queue's consumer (as the read
      grants it will hand out before `read` fails), the serial writes made,
      the lengths released back to the queue, and the number of
      `process_one` calls made on the responder. */
  class IdleLoop {
    var pendingGrants: seq<seq<u8>>
    var serialWrites: seq<seq<u8>>
    var releases: seq<nat>
    var processCalls: nat

    constructor (grants: seq<seq<u8>>)
      ensures pendingGrants == grants && serialWrites == [] && releases == [] && processCalls == 0
    {
      pendingGrants, serialWrites, releases, processCalls := grants, [], [], 0;
    }

    /** `for chunk in grant.buf().chunks(255) { SERIAL.write(chunk) }`. */
    method WriteChunks(grant: seq<u8>)
      modifies this`serialWrites
      ensures serialWrites == old(serialWrites) + Chunks(grant, SERIAL_CHUNK)
    {
      ghost var target := old(serialWrites) + Chunks(grant, SERIAL_CHUNK);
      var i := 0;
      assert grant[i..] == grant;
      while i < |grant|
        invariant 0 <= i <= |grant|
        invariant serialWrites + Chunks(grant[i..], SERIAL_CHUNK) == target
        decreases |grant| - i
      {
        var end := if i + SERIAL_CHUNK <= |grant| then i + SERIAL_CHUNK else |grant|;
        ChunksFrom(grant, i, end);
        ghost var rest := Chunks(grant[end..], SERIAL_CHUNK);
        assert serialWrites + ([grant[i..end]] + rest) == (serialWrites + [grant[i..end]]) + rest;
        serialWrites := serialWrites + [grant[i..end]];
        i := end;
      }
      assert grant[i..] == [];
    }

    /** One successful `read`: write the grant out in chunks, then release
        its whole length. */
    method DrainGrant()
      requires pendingGrants != []
      modifies this
      ensures pendingGrants == old(pendingGrants)[1..]
      ensures serialWrites == old(serialWrites) + Chunks(old(pendingGrants)[0], SERIAL_CHUNK)
      ensures releases == old(releases) + [|old(pendingGrants)[0]|]
      ensures processCalls == old(processCalls)
    {
      var grant := pendingGrants[0];
      WriteChunks(grant);
      releases := releases + [|grant|];
      pendingGrants := pendingGrants[1..];
    }

    /** `while let Ok(grant) = LOG_SINK.read()`: drain grants until `read`
        fails. */
    method DrainLog()
      modifies this
      ensures pendingGrants == []
      ensures serialWrites == old(serialWrites) + DrainWrites(old(pendingGrants))
      ensures releases == old(releases) + GrantLengths(old(pendingGrants))
      ensures processCalls == old(processCalls)
    {
      while pendingGrants != []
        invariant serialWrites + DrainWrites(pendingGrants) == old(serialWrites) + DrainWrites(old(pendingGrants))
        invariant releases + GrantLengths(pendingGrants) == old(releases) + GrantLengths(old(pendingGrants))
        invariant processCalls == old(processCalls)
        decreases |pendingGrants|
      {
        DrainWritesStep(serialWrites, pendingGrants);
        GrantLengthsStep(releases, pendingGrants);
        DrainGrant();
      }
    }

    /** One pass of the idle loop: drain the log, then let the responder
        process one unit of work if `hasWork` (what `has_work` answered). */
    method Iterate(hasWork: bool)
      modifies this
      ensures pendingGrants == []
      ensures serialWrites == old(serialWrites) + DrainWrites(old(pendingGrants))
      ensures releases == old(releases) + GrantLengths(old(pendingGrants))
      ensures processCalls == old(processCalls) + (if hasWork then 1 else 0)
      ensures old(pendingGrants) == [] && !hasWork ==>
        serialWrites == old(serialWrites) && releases == old(releases) && processCalls == old(processCalls)
    {
      DrainLog();
      if hasWork {
        processCalls := processCalls + 1;
      }
    }
  }
}
