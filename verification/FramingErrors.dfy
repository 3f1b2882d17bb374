/**
 Where framing stops and why: the bytes left over tell exactly whether the stream waits for
 more, lacks a Content-Length, has a header block past 64 KiB or holds a message that does
 not parse (section 18.3 of RFC 3261).
 */
module FramingErrors {
  import opened Wrappers
  import opened Bytes
  import opened Text
  import opened Framing

  /** A line that gives a length, readable or not. */
  predicate GivesLength(line: string) {
    match SplitOnce(line, ':')
    case Some((name, _)) => Lower(Trim(name)) in {"content-length", "l"}
    case None => false
  }

  /** The first such line counts; without one, or if its value is no number, there is no length. */
  lemma {:induction false} FirstLengthCounts(lines: seq<string>, i: nat)
    requires i <= |lines| && forall j :: 0 <= j < i ==> !GivesLength(lines[j])
    requires i < |lines| ==> GivesLength(lines[i])
    ensures ScanLines(lines)
         == if i == |lines| then None else ParseUnsigned(Trim(SplitOnce(lines[i], ':').value.1), USIZE_MAX)
  {
    hide Text.SplitOnce, Text.Trim, Text.Lower, Text.ParseUnsigned;
    if lines == [] || i == 0 {
    } else {
      assert forall j :: 0 <= j < i - 1 ==> lines[1..][j] == lines[j + 1];
      FirstLengthCounts(lines[1..], i - 1);
      assert !GivesLength(lines[0]);
    }
  }

  /** A header block: everything up to the first empty line, and that line. */
  ghost predicate FirstBlock(buf: seq<Byte>, size: nat) {
    size >= 4 && EndsHeaderAt(buf, size - 4) && forall j: nat :: j < size - 4 ==> !EndsHeaderAt(buf, j)
  }

  /** What the bytes left over say about why framing stopped. */
  ghost predicate StoppedBy<M>(parse: seq<Byte> -> Option<M>, rest: seq<Byte>, error: Option<FramingError>) {
    match error
    case Some(MissingContentLength) =>
        exists size: nat :: FirstBlock(rest, size) && ContentLengthOf(rest[..size]) == None
    case Some(HeadersTooLarge) => |rest| > 65_536 && forall j: nat :: !EndsHeaderAt(rest, j)
    case Some(Malformed) =>
      exists size: nat :: FirstBlock(rest, size) && ContentLengthOf(rest[..size]).Some?
          && size + ContentLengthOf(rest[..size]).value <= |rest|
          && parse(rest[..size + ContentLengthOf(rest[..size]).value]) == None
    case None =>
      || (|rest| <= 65_536 && forall j: nat :: !EndsHeaderAt(rest, j))
      || (exists size: nat :: FirstBlock(rest, size) && ContentLengthOf(rest[..size]).Some?
            && |rest| < size + ContentLengthOf(rest[..size]).value)
  }

  lemma BlockIs(buf: seq<Byte>)
    ensures HeaderEnd(buf, 0).Some? ==> FirstBlock(buf, HeaderEnd(buf, 0).value)
    ensures HeaderEnd(buf, 0).None? ==> forall j: nat :: !EndsHeaderAt(buf, j)
  {
  }

  lemma NextStops<M>(parse: seq<Byte> -> Option<M>, buf: seq<Byte>)
    ensures match NextOf(parse, buf)
            case NeedMore => StoppedBy(parse, buf, None)
            case Broken(e) => StoppedBy(parse, buf, Some(e))
            case Whole(_, _) => true
  {
    hide HeaderEnd, ContentLengthOf;
    BlockIs(buf);
  }

  lemma DrainStep<M>(parse: seq<Byte> -> Option<M>, buf: seq<Byte>)
    ensures match NextOf(parse, Strip(buf).1)
            case NeedMore => Drain(parse, buf).rest == Strip(buf).1 && Drain(parse, buf).error == None
            case Broken(e) => Drain(parse, buf).rest == Strip(buf).1 && Drain(parse, buf).error == Some(e)
            case Whole(_, size) =>
              && |Strip(buf).1[size..]| < |buf|
              && Drain(parse, buf).rest == Drain(parse, Strip(buf).1[size..]).rest
              && Drain(parse, buf).error == Drain(parse, Strip(buf).1[size..]).error
  {
    hide NextOf;
  }

  /** However the buffer began, what is left of it decides the error, and starts with no CRLF. */
  lemma {:induction false} DrainStops<M>(parse: seq<Byte> -> Option<M>, buf: seq<Byte>)
    ensures StoppedBy(parse, Drain(parse, buf).rest, Drain(parse, buf).error)
    ensures !StartsCrLf(Drain(parse, buf).rest)
    decreases |buf|
  {
    DrainStep(parse, buf);
    NextStops(parse, Strip(buf).1);
    hide Drain, NextOf, StoppedBy;
    match NextOf(parse, Strip(buf).1)
    case NeedMore =>
    case Broken(_) =>
    case Whole(_, size) => DrainStops(parse, Strip(buf).1[size..]);
  }

  lemma OneBlock(buf: seq<Byte>, m: nat, n: nat)
    requires FirstBlock(buf, m) && FirstBlock(buf, n)
    ensures m == n
  {
  }

  /** The reasons exclude one another, so the bytes left over determine the error. */
  lemma OneReason<M>(parse: seq<Byte> -> Option<M>, rest: seq<Byte>, a: Option<FramingError>, b: Option<FramingError>)
    requires StoppedBy(parse, rest, a) && StoppedBy(parse, rest, b)
    ensures a == b
  {
    hide ContentLengthOf;
    forall m: nat, n: nat | FirstBlock(rest, m) && FirstBlock(rest, n) ensures m == n {
      OneBlock(rest, m, n);
    }
  }

  /** The read task stops for the same reasons. */
  lemma {:induction false} ReadStops<M>(parse: seq<Byte> -> Option<M>, buf: seq<Byte>, chunks: seq<seq<Byte>>)
    requires chunks != []
    ensures StoppedBy(parse, ReadAll(parse, buf, chunks).rest, ReadAll(parse, buf, chunks).error)
    decreases |chunks|
  {
    var d := Drain(parse, buf + chunks[0]);
    DrainStops(parse, buf + chunks[0]);
    ReadStep(parse, buf, chunks);
    NothingRead(parse, d.rest, []);
    hide StoppedBy, Drain;
    if d.error.None? && chunks[1..] != [] {
      ReadStops(parse, d.rest, chunks[1..]);
    }
  }
}
