/**
 What framing promises: the chunks a stream is read in do not matter, exactly when no
 terminated header block is longer than the cap allows; and what was printed comes back.
 */
module FramingLaws {
  import opened Wrappers
  import opened Bytes
  import opened Text
  import opened Framing

  /** The largest single read. */
  const READ_CHUNK: nat := 8 * 1024

  function Flat(chunks: seq<seq<Byte>>): seq<Byte> {
    if chunks == [] then [] else chunks[0] + Flat(chunks[1..])
  }

  /** The ways a stream can arrive: any reads of one byte up to a full chunk. */
  predicate Reads(chunks: seq<seq<Byte>>) {
    forall i :: 0 <= i < |chunks| ==> 1 <= |chunks[i]| <= READ_CHUNK
  }

  /** Every header block of the stream that has its terminator ends within one byte of the cap. */
  predicate Fits<M>(parse: seq<Byte> -> Option<M>, stream: seq<Byte>)
    decreases |stream|
  {
    var b := Strip(stream).1;
    && (HeaderEnd(b, 0).Some? ==> HeaderEnd(b, 0).value <= MAX_HEADER_BYTES + 1)
    && (match NextOf(parse, b) case Whole(_, size) => Fits(parse, b[size..]) case _ => true)
  }

  /** Two results agree: the same messages and first error, and without an error the rest too. */
  ghost predicate Agree<M>(a: Drained<M>, b: Drained<M>) {
    && a.messages == b.messages && a.error == b.error
    && (a.error == None ==> a.rest == b.rest && a.keepalives == b.keepalives)
  }

  // ---- Splitting a stream ----

  lemma {:induction false} StripThen(a: seq<Byte>, b: seq<Byte>)
    ensures Strip(a + b) == (Strip(a).0 + Strip(Strip(a).1 + b).0, Strip(Strip(a).1 + b).1)
    decreases |a|
  {
    if StartsCrLf(a) {
      assert (a + b)[2..] == a[2..] + b;
      StripThen(a[2..], b);
    }
  }

  /** A terminator that has arrived is found where it was; none is found before what has arrived. */
  lemma HeaderEndThen(a: seq<Byte>, b: seq<Byte>)
    ensures HeaderEnd(a, 0).Some? ==> HeaderEnd(a + b, 0) == HeaderEnd(a, 0)
    ensures HeaderEnd(a, 0).None? && HeaderEnd(a + b, 0).Some? ==> HeaderEnd(a + b, 0).value > |a|
  {
    var x, y := HeaderEnd(a, 0), HeaderEnd(a + b, 0);
    if x.Some? {
      assert EndsHeaderAt(a + b, x.value - 4);
    }
    if y.Some? && y.value <= |a| {
      assert EndsHeaderAt(a, y.value - 4);
    }
  }

  /** More bytes change nothing the framer has already decided. */
  lemma NextThen<M>(parse: seq<Byte> -> Option<M>, a: seq<Byte>, b: seq<Byte>)
    requires HeaderEnd(a + b, 0).Some? ==> HeaderEnd(a + b, 0).value <= MAX_HEADER_BYTES + 1
    ensures NextOf(parse, a).NeedMore? || NextOf(parse, a + b) == NextOf(parse, a)
  {
    hide HeaderEnd, ContentLengthOf;
    HeaderEndThen(a, b);
    if HeaderEnd(a, 0).Some? {
      var end := HeaderEnd(a, 0).value;
      assert (a + b)[..end] == a[..end];
      if ContentLengthOf(a[..end]).Some? && |a| >= end + ContentLengthOf(a[..end]).value {
        assert (a + b)[..end + ContentLengthOf(a[..end]).value] == a[..end + ContentLengthOf(a[..end]).value];
      }
    }
  }

  /** Reading the first part of a stream and then the rest is reading the stream. */
  ghost predicate Continues<M>(parse: seq<Byte> -> Option<M>, d: Drained<M>, b: seq<Byte>, whole: Drained<M>) {
    if d.error.Some? then whole.error == d.error && whole.messages == d.messages
    else
      var later := Drain(parse, d.rest + b);
      && Fits(parse, d.rest + b)
      && whole == Drained(d.messages + later.messages, d.keepalives + later.keepalives, later.rest, later.error)
  }

  lemma Prepend<M>(parse: seq<Byte> -> Option<M>, m: M, n: nat, d: Drained<M>, b: seq<Byte>, whole: Drained<M>)
    requires Continues(parse, d, b, whole)
    ensures Continues(parse, Drained([m] + d.messages, n + d.keepalives, d.rest, d.error), b,
                      Drained([m] + whole.messages, n + whole.keepalives, whole.rest, whole.error))
  {
    hide Drain, Fits;
    if d.error == None {
      var later := Drain(parse, d.rest + b);
      assert [m] + (d.messages + later.messages) == [m] + d.messages + later.messages;
    }
  }

  /** Once the framer has decided on a stripped buffer, nothing more is stripped when bytes follow. */
  lemma NextIsSettled<M>(parse: seq<Byte> -> Option<M>, r: seq<Byte>, b: seq<Byte>, stripped: seq<Byte>)
    requires !StartsCrLf(r) && stripped == Strip(r + b).1
    requires HeaderEnd(stripped, 0).Some? ==> HeaderEnd(stripped, 0).value <= MAX_HEADER_BYTES + 1
    ensures !NextOf(parse, r).NeedMore? ==>
        stripped == r + b && Strip(r + b).0 == 0 && NextOf(parse, r + b) == NextOf(parse, r)
  {
    if !NextOf(parse, r).NeedMore? {
      assert |r| >= 2 && !StartsCrLf(r + b);
      NextThen(parse, r, b);
    }
  }

  lemma FitsByStrip<M>(parse: seq<Byte> -> Option<M>, x: seq<Byte>, y: seq<Byte>)
    requires Strip(x).1 == Strip(y).1
    ensures Fits(parse, x) == Fits(parse, y)
  {
  }

  lemma DrainByStrip<M>(parse: seq<Byte> -> Option<M>, x: seq<Byte>, y: seq<Byte>)
    requires Strip(x).1 == Strip(y).1
    ensures var d, e := Drain(parse, x), Drain(parse, y);
            d.messages == e.messages && d.rest == e.rest && d.error == e.error
                && d.keepalives + Strip(y).0 == e.keepalives + Strip(x).0
  {
  }

  lemma {:induction false} DrainThen<M>(parse: seq<Byte> -> Option<M>, a: seq<Byte>, b: seq<Byte>)
    requires Fits(parse, a + b)
    ensures Continues(parse, Drain(parse, a), b, Drain(parse, a + b))
    decreases |a|
  {
    hide NextOf, HeaderEnd, Strip;
    StripThen(a, b);
    var r := Strip(a).1;
    NextIsSettled(parse, r, b, Strip(r + b).1);
    match NextOf(parse, r)
    case NeedMore =>
      FitsByStrip(parse, a + b, r + b);
      DrainByStrip(parse, a + b, r + b);
    case Broken(_) =>
    case Whole(m, size) =>
      assert (r + b)[size..] == r[size..] + b;
      DrainThen(parse, r[size..], b);
      Prepend(parse, m, Strip(a).0, Drain(parse, r[size..]), b, Drain(parse, r[size..] + b));
  }

  /** What draining leaves over has nothing more to give. */
  lemma {:induction false} DrainLeavesNothing<M>(parse: seq<Byte> -> Option<M>, s: seq<Byte>)
    requires Drain(parse, s).error == None
    ensures Drain(parse, Drain(parse, s).rest) == Drained([], 0, Drain(parse, s).rest, None)
    decreases |s|
  {
    var b := Strip(s).1;
    match NextOf(parse, b)
    case NeedMore =>
    case Broken(_) =>
    case Whole(m, size) => DrainLeavesNothing(parse, b[size..]);
  }

  // ---- Chunking ----

  lemma {:induction false} ReadAllIsDrain<M>(parse: seq<Byte> -> Option<M>, buf: seq<Byte>, chunks: seq<seq<Byte>>)
    requires Drain(parse, buf) == Drained([], 0, buf, None)
    requires Fits(parse, buf + Flat(chunks))
    ensures Agree(ReadAll(parse, buf, chunks), Drain(parse, buf + Flat(chunks)))
    decreases |chunks|
  {
    if chunks == [] {
      assert buf + Flat(chunks) == buf;
    } else {
      var a, rest := buf + chunks[0], Flat(chunks[1..]);
      assert buf + Flat(chunks) == a + rest;
      DrainThen(parse, a, rest);
      var d := Drain(parse, a);
      if d.error == None {
        DrainLeavesNothing(parse, a);
        ReadAllIsDrain(parse, d.rest, chunks[1..]);
      }
    }
  }

  /** Reading more chunks goes on where the reading stopped, and stops where it broke. */
  lemma {:induction false} ReadAllThen<M>(parse: seq<Byte> -> Option<M>, buf: seq<Byte>, first: seq<seq<Byte>>,
          more: seq<seq<Byte>>)
    requires ReadAll(parse, buf, first).error.Some?
    ensures ReadAll(parse, buf, first + more) == ReadAll(parse, buf, first)
    decreases |first|
  {
    assert (first + more)[0] == first[0] && (first + more)[1..] == first[1..] + more;
    var d := Drain(parse, buf + first[0]);
    if d.error == None {
      ReadAllThen(parse, d.rest, first[1..], more);
    }
  }

  lemma {:induction false} FlatConcat(a: seq<seq<Byte>>, b: seq<seq<Byte>>)
    ensures Flat(a + b) == Flat(a) + Flat(b)
  {
    if a == [] {
      assert a + b == b;
    } else {
      assert (a + b)[1..] == a[1..] + b;
      FlatConcat(a[1..], b);
    }
  }

  /** Any stream can arrive one byte at a time. */
  function Singly(s: seq<Byte>): (r: seq<seq<Byte>>)
    ensures Reads(r) && Flat(r) == s
  {
    if s == [] then [] else
      assert s == [s[0]] + s[1..];
      [[s[0]]] + Singly(s[1..])
  }

  /** Up to `cut` the stream fits and is too large for the framer; as a whole it is something else. */
  ghost predicate BreaksAt<M>(parse: seq<Byte> -> Option<M>, s: seq<Byte>, cut: nat) {
    && cut <= |s| && Fits(parse, s[..cut])
    && var early, whole := Drain(parse, s[..cut]), Drain(parse, s);
    && early.error == Some(HeadersTooLarge)
    && (whole.error != Some(HeadersTooLarge) || |whole.messages| > |early.messages|)
  }

  lemma {:induction false} StripIsSuffix(s: seq<Byte>)
    ensures 2 * Strip(s).0 <= |s| && Strip(s).1 == s[2 * Strip(s).0..]
    decreases |s|
  {
    if StartsCrLf(s) {
      StripIsSuffix(s[2..]);
      var k := Strip(s[2..]).0;
      assert s[2..][2 * k..] == s[2 * (k + 1)..];
    }
  }

  /** Cutting a stream after its leading CRLFs and at least one byte more leaves them as they were. */
  lemma {:induction false} StripOfPrefix(s: seq<Byte>, cut: nat)
    requires 2 * Strip(s).0 <= cut <= |s|
    ensures Strip(s[..cut]) == (Strip(s).0, s[..cut][2 * Strip(s).0..])
    decreases |s|
  {
    if StartsCrLf(s) {
      assert s[..cut][2..] == s[2..][..cut - 2];
      StripOfPrefix(s[2..], cut - 2);
      var k := Strip(s[2..]).0;
      assert s[2..][..cut - 2][2 * k..] == s[..cut][2 * (k + 1)..];
    }
  }

  lemma BreaksHere<M>(parse: seq<Byte> -> Option<M>, s: seq<Byte>) returns (cut: nat)
    requires var b := Strip(s).1; HeaderEnd(b, 0).Some? && HeaderEnd(b, 0).value > MAX_HEADER_BYTES + 1
    ensures BreaksAt(parse, s, cut)
  {
    var (n, b) := Strip(s);
    StripIsSuffix(s);
    cut := 2 * n + MAX_HEADER_BYTES + 1;
    StripOfPrefix(s, cut);
    hide Strip, ContentLengthOf, HeaderEnd;
    var head := b[..MAX_HEADER_BYTES + 1];
    assert b == head + b[MAX_HEADER_BYTES + 1..];
    HeaderEndThen(head, b[MAX_HEADER_BYTES + 1..]);
    assert s[..cut][2 * n..] == head;
    assert NextOf(parse, head) == Broken(HeadersTooLarge);
    assert NextOf(parse, b) != Broken(HeadersTooLarge);
    hide NextOf, HeaderEnd;
  }

  lemma PrefixIsWhole<M>(parse: seq<Byte> -> Option<M>, head: seq<Byte>, tail: seq<Byte>, size: nat)
    requires NextOf(parse, head + tail).Whole? && NextOf(parse, head + tail).size == size <= |head|
    ensures NextOf(parse, head) == NextOf(parse, head + tail) && HeaderEnd(head, 0) == HeaderEnd(head + tail, 0)
  {
    hide HeaderEnd, ContentLengthOf;
    HeaderEndThen(head, tail);
    var end := HeaderEnd(head + tail, 0).value;
    assert (head + tail)[..end] == head[..end];
    assert (head + tail)[..size] == head[..size];
  }

  lemma BreaksLater<M>(parse: seq<Byte> -> Option<M>, s: seq<Byte>, inner: nat) returns (cut: nat)
    requires var b := Strip(s).1;
             && (HeaderEnd(b, 0).Some? ==> HeaderEnd(b, 0).value <= MAX_HEADER_BYTES + 1)
             && NextOf(parse, b).Whole? && BreaksAt(parse, b[NextOf(parse, b).size..], inner)
    ensures BreaksAt(parse, s, cut)
  {
    hide Strip, NextOf, HeaderEnd;
    var (n, b) := Strip(s);
    var size := NextOf(parse, b).size;
    StripIsSuffix(s);
    cut := 2 * n + size + inner;
    StripOfPrefix(s, cut);
    var head, tail := b[..size + inner], b[size + inner..];
    assert s[..cut][2 * n..] == head && b == head + tail;
    assert head[size..] == b[size..][..inner];
    PrefixIsWhole(parse, head, tail, size);
  }

  /** A stream with a header block over the cap has a prefix that breaks where the stream itself does not. */
  lemma {:induction false} OversizeBreaksEarly<M>(parse: seq<Byte> -> Option<M>, s: seq<Byte>) returns (cut: nat)
    requires !Fits(parse, s)
    ensures BreaksAt(parse, s, cut)
    decreases |s|
  {
    var (n, b) := Strip(s);
    StripIsSuffix(s);
    hide Strip, NextOf, HeaderEnd, BreaksAt;
    if HeaderEnd(b, 0).Some? && HeaderEnd(b, 0).value > MAX_HEADER_BYTES + 1 {
      cut := BreaksHere(parse, s);
    } else {
      var size := NextOf(parse, b).size;
      var inner := OversizeBreaksEarly(parse, b[size..]);
      cut := BreaksLater(parse, s, inner);
    }
  }

  lemma EmptyIsDrained<M>(parse: seq<Byte> -> Option<M>)
    ensures Drain(parse, []) == Drained([], 0, [], None)
  {
  }

  lemma OversizeShows<M>(parse: seq<Byte> -> Option<M>, stream: seq<Byte>) returns (chunks: seq<seq<Byte>>)
    requires !Fits(parse, stream)
    ensures Reads(chunks) && Flat(chunks) == stream && !Agree(ReadAll(parse, [], chunks), Drain(parse, stream))
  {
    hide ReadAll, Drain, Fits;
    var cut := OversizeBreaksEarly(parse, stream);
    assert BreaksAt(parse, stream, cut);
    var first, more := Singly(stream[..cut]), Singly(stream[cut..]);
    assert [] + Flat(first) == stream[..cut];
    EmptyIsDrained(parse);
    ReadAllIsDrain(parse, [], first);
    ReadAllThen(parse, [], first, more);
    FlatConcat(first, more);
    assert stream[..cut] + stream[cut..] == stream;
    chunks := first + more;
  }

  /**
   How a stream is cut into reads makes no difference, if and only if every terminated
   header block ends within one byte of the cap: then every way of reading it gives the
   messages and the first error of the whole stream, and without an error the same bytes
   left over and the same keepalives; otherwise some way of reading it does not.
   */
  lemma ChunkingIsInvisible<M>(parse: seq<Byte> -> Option<M>, stream: seq<Byte>)
    ensures Fits(parse, stream) <==>
      forall chunks :: Reads(chunks) && Flat(chunks) == stream ==>
          Agree(ReadAll(parse, [], chunks), Drain(parse, stream))
  {
    hide ReadAll, Drain, Fits, Reads;
    if Fits(parse, stream) {
      forall chunks | Reads(chunks) && Flat(chunks) == stream
        ensures Agree(ReadAll(parse, [], chunks), Drain(parse, stream))
      {
        assert [] + Flat(chunks) == stream;
        EmptyIsDrained(parse);
        ReadAllIsDrain(parse, [], chunks);
      }
    } else {
      var chunks := OversizeShows(parse, stream);
    }
  }
}
