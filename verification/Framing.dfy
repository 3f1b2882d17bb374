/**
 Stream framing (section 7.5 of RFC 3261): the incremental `Framer` and the read loop that
 pushes each chunk it reads and then drains whole messages. `Drain` is the whole-stream
 parser they are proved against. Parsing a framed message is a parameter.
 */
module Framing {
  import opened Wrappers
  import opened Bytes
  import opened Text

  const MAX_HEADER_BYTES: nat := 64 * 1024

  const CR: Byte := 13
  const LF: Byte := 10
  const CRLF: seq<Byte> := [CR, LF]

  datatype FramingError = MissingContentLength | HeadersTooLarge | Malformed

  predicate StartsCrLf(buf: seq<Byte>) {
    |buf| >= 2 && buf[0] == CR && buf[1] == LF
  }

  predicate EndsHeaderAt(buf: seq<Byte>, i: nat) {
    i + 4 <= |buf| && buf[i] == CR && buf[i + 1] == LF && buf[i + 2] == CR && buf[i + 3] == LF
  }

  function HeaderEnd(buf: seq<Byte>, from: nat): (end: Option<nat>)
    ensures end.Some? ==> from + 4 <= end.value <= |buf| && EndsHeaderAt(buf, end.value - 4)
    ensures forall i :: from <= i && EndsHeaderAt(buf, i) ==> end.Some? && end.value <= i + 4
    decreases |buf| - from
  {
    if from + 4 > |buf| then None
    else if EndsHeaderAt(buf, from) then Some(from + 4)
    else HeaderEnd(buf, from + 1)
  }

  /** The offset just past the first CRLFCRLF. */
  method FindHeaderEnd(buf: seq<Byte>) returns (end: Option<nat>)
    ensures end == HeaderEnd(buf, 0)
  {
    var i := 0;
    while i + 4 <= |buf|
      invariant HeaderEnd(buf, 0) == HeaderEnd(buf, i)
    {
      if EndsHeaderAt(buf, i) {
        return Some(i + 4);
      }
      i := i + 1;
    }
    end := None;
  }

  predicate NamesContentLength(name: string) {
    Lower(Trim(name)) in {"content-length", "l"}
  }

  function ScanLines(lines: seq<string>): Option<nat> {
    if lines == [] then None
    else
      match SplitOnce(lines[0], ':')
      case None => ScanLines(lines[1..])
      case Some((name, value)) =>
        if NamesContentLength(name) then ParseUnsigned(Trim(value), USIZE_MAX) else ScanLines(lines[1..])
  }

  function ContentLengthOf(headers: seq<Byte>): Option<nat> {
    match Decode(headers)
    case None => None
    case Some(text) => ScanLines(SplitCrLf(text))
  }

  method ContentLength(headers: seq<Byte>) returns (length: Option<nat>)
    ensures length == ContentLengthOf(headers)
  {
    hide Text.SplitOnce, Text.Trim, Text.ParseUnsigned, NamesContentLength;
    var text := Decode(headers);
    if text.None? {
      return None;
    }
    var lines := SplitCrLf(text.value);
    var i := 0;
    while i < |lines|
      invariant i <= |lines| && ScanLines(lines) == ScanLines(lines[i..])
    {
      // A line with no colon is the start line.
      var field := SplitOnce(lines[i], ':');
      if field.Some? && NamesContentLength(field.value.0) {
        return ParseUnsigned(Trim(field.value.1), USIZE_MAX);
      }
      assert lines[i..][1..] == lines[i + 1..];
      i := i + 1;
    }
    length := None;
  }

  // ---- The whole-stream parser ----

  /** How many bare CRLFs lead a buffer, and what follows them. */
  function Strip(buf: seq<Byte>): (r: (nat, seq<Byte>))
    ensures !StartsCrLf(r.1) && |buf| == 2 * r.0 + |r.1|
  {
    if StartsCrLf(buf) then
      var (n, rest) := Strip(buf[2..]);
      (n + 1, rest)
    else (0, buf)
  }

  datatype Next<M> = NeedMore | Whole(message: M, size: nat) | Broken(error: FramingError)

  /** What the framer makes of a buffer whose leading CRLFs are gone. */
  function NextOf<M>(parse: seq<Byte> -> Option<M>, buf: seq<Byte>): (r: Next<M>)
    ensures r.Whole? ==> 4 <= r.size <= |buf|
  {
    match HeaderEnd(buf, 0)
    case None => if |buf| > MAX_HEADER_BYTES then Broken(HeadersTooLarge) else NeedMore
    case Some(end) =>
      match ContentLengthOf(buf[..end])
      case None => Broken(MissingContentLength)
      case Some(n) =>
        if |buf| < end + n then NeedMore
        else match parse(buf[..end + n])
          case None => Broken(Malformed)
          case Some(m) => Whole(m, end + n)
  }

  lemma StripStep(buf: seq<Byte>)
    requires StartsCrLf(buf)
    ensures Strip(buf) == (Strip(buf[2..]).0 + 1, Strip(buf[2..]).1)
  {
  }

  lemma StripDone(buf: seq<Byte>)
    requires !StartsCrLf(buf)
    ensures Strip(buf) == (0, buf)
  {
  }

  /** The messages of a stream in order, the CRLFs between them, and what ended or is left. */
  datatype Drained<M> = Drained(messages: seq<M>, keepalives: nat, rest: seq<Byte>, error: Option<FramingError>)

  function Drain<M>(parse: seq<Byte> -> Option<M>, buf: seq<Byte>): Drained<M>
    decreases |buf|
  {
    var (n, b) := Strip(buf);
    match NextOf(parse, b)
    case NeedMore => Drained([], n, b, None)
    case Broken(e) => Drained([], n, b, Some(e))
    case Whole(m, size) =>
      var d := Drain(parse, b[size..]);
      Drained([m] + d.messages, n + d.keepalives, d.rest, d.error)
  }

  /** Reading a stream chunk by chunk: after an error nothing more is read. */
  function ReadAll<M>(parse: seq<Byte> -> Option<M>, buf: seq<Byte>, chunks: seq<seq<Byte>>): Drained<M>
    decreases |chunks|
  {
    if chunks == [] then Drained([], 0, buf, None)
    else
      var d := Drain(parse, buf + chunks[0]);
      if d.error.Some? then d
      else
        var later := ReadAll(parse, d.rest, chunks[1..]);
        Drained(d.messages + later.messages, d.keepalives + later.keepalives, later.rest, later.error)
  }

  /** The messages a receiver takes that is gone after some, if it goes at all. */
  function Taken<M>(room: Option<nat>, messages: seq<M>): seq<M> {
    if room.Some? && room.value < |messages| then messages[..room.value] else messages
  }

  // ---- The framer ----

  class Framer<M> {
    const parse: seq<Byte> -> Option<M>
    var buf: seq<Byte>
    /** Bare CRLFs skipped since the last `TakeKeepalives`. */
    var keepalives: nat

    constructor (parse: seq<Byte> -> Option<M>)
      ensures this.parse == parse && buf == [] && keepalives == 0
    {
      this.parse, buf, keepalives := parse, [], 0;
    }

    method Push(bytes: seq<Byte>)
      modifies this`buf
      ensures buf == old(buf) + bytes
    {
      buf := buf + bytes;
    }

    /** Leading bare CRLFs are dropped and counted. */
    method SkipCrLfs()
      modifies this
      ensures buf == Strip(old(buf)).1 && keepalives == old(keepalives) + Strip(old(buf)).0
    {
      while StartsCrLf(buf)
        invariant keepalives + Strip(buf).0 == old(keepalives) + Strip(old(buf)).0
        invariant Strip(buf).1 == Strip(old(buf)).1
        decreases |buf|
      {
        StripStep(buf);
        hide Strip;
        buf := buf[2..];
        keepalives := keepalives + 1;
      }
      StripDone(buf);
    }

    /** `Ok(None)` means more bytes are needed. */
    method NextMessage() returns (next: Result<Option<M>, FramingError>)
      modifies this
      ensures var (n, b) := Strip(old(buf));
              && keepalives == old(keepalives) + n
              && match NextOf(parse, b)
                 case NeedMore => next == Ok(None) && buf == b
                 case Whole(m, size) => next == Ok(Some(m)) && buf == b[size..]
                 case Broken(e) => next == Err(e) && (!e.Malformed? ==> buf == b)
    {
      hide Strip, StartsCrLf, HeaderEnd, ContentLengthOf;
      SkipCrLfs();
      var end := FindHeaderEnd(buf);
      if end.None? {
        if |buf| > MAX_HEADER_BYTES {
          return Err(HeadersTooLarge);
        }
        return Ok(None);
      }
      var bodyLen := ContentLength(buf[..end.value]);
      if bodyLen.None? {
        return Err(MissingContentLength);
      }
      var total := end.value + bodyLen.value;
      if |buf| < total {
        return Ok(None);
      }
      var raw := buf[..total];
      buf := buf[total..];
      match parse(raw) {
        case Some(m) => next := Ok(Some(m));
        case None => next := Err(Malformed);
      }
    }

    /**
     The inner loop of the read task: messages until the framer needs more bytes or breaks,
     or the receiver, which takes `room` messages if that is given, is gone.
     */
    method DrainMessages(room: Option<nat>) returns (messages: seq<M>, error: Option<FramingError>, taken: bool)
      requires keepalives == 0
      modifies this
      ensures var d := Drain(parse, old(buf));
              && messages == Taken(room, d.messages) && (taken <==> messages == d.messages)
              && error == (if taken then d.error else None)
              && (taken && error == None ==> buf == d.rest && keepalives == d.keepalives)
    {
      messages := [];
      ghost var d := Drain(parse, buf);
      while true
        invariant var left := Drain(parse, buf);
          && d.messages == messages + left.messages && d.error == left.error
          && d.rest == left.rest && d.keepalives == keepalives + left.keepalives
        invariant room.Some? ==> |messages| <= room.value
        decreases |buf|
      {
        var next := NextMessage();
        match next {
          case Ok(Some(m)) =>
            if room == Some(|messages|) {
              return messages, None, false;
            }
            messages := messages + [m];
          case Ok(None) => return messages, None, true;
          case Err(e) => return messages, Some(e), true;
        }
      }
    }

    method TakeKeepalives() returns (skipped: nat)
      modifies this`keepalives
      ensures skipped == old(keepalives) && keepalives == 0
    {
      skipped := keepalives;
      keepalives := 0;
    }
  }

  function Left(room: Option<nat>, taken: nat): Option<nat>
    requires room.Some? ==> taken <= room.value
  {
    match room case Some(n) => Some(n - taken) case None => None
  }

  lemma ReadStep<M>(parse: seq<Byte> -> Option<M>, buf: seq<Byte>, chunks: seq<seq<Byte>>)
    requires chunks != []
    ensures
      var now, all := Drain(parse, buf + chunks[0]), ReadAll(parse, buf, chunks);
      if now.error.Some? then all == now
      else
        var later := ReadAll(parse, now.rest, chunks[1..]);
        all == Drained(now.messages + later.messages, now.keepalives + later.keepalives, later.rest, later.error)
  {
  }

  lemma NothingRead<M>(parse: seq<Byte> -> Option<M>, buf: seq<Byte>, chunks: seq<seq<Byte>>)
    requires chunks == []
    ensures ReadAll(parse, buf, chunks) == Drained([], 0, buf, None)
  {
  }

  lemma TakenWhole<M>(room: Option<nat>, messages: seq<M>)
    requires room.Some? ==> |messages| <= room.value
    ensures Taken(room, messages) == messages
  {
  }

  /** Taking the messages of one chunk after those of the chunks before. */
  lemma TakenThen<M>(room: Option<nat>, before: seq<M>, now: seq<M>, all: seq<M>)
    requires (room.Some? ==> |before| <= room.value) && before + now <= all
    ensures Taken(Left(room, |before|), now) == now ==> room.Some? ==> |before + now| <= room.value
    ensures Taken(Left(room, |before|), now) != now ==>
      before + Taken(Left(room, |before|), now) == Taken(room, all) && Taken(room, all) != all
  {
  }

  /** The read task over the chunks it reads until reading ends, the stream cannot be framed or the receiver is gone. */
  method ReadTask<M>(parse: seq<Byte> -> Option<M>, chunks: seq<seq<Byte>>, room: Option<nat>)
    returns (messages: seq<M>, keepalives: nat, error: Option<FramingError>, rest: seq<Byte>)
    ensures var d := ReadAll(parse, [], chunks);
            && messages == Taken(room, d.messages)
            && (messages == d.messages ==>
                error == d.error && (error == None ==> keepalives == d.keepalives && rest == d.rest))
            && (messages != d.messages ==> error == None)
  {
    hide ReadAll, Drain, Taken;
    var framer := new Framer(parse);
    messages, keepalives, error := [], 0, None;
    var i := 0;
    ghost var d := ReadAll(parse, [], chunks);
    assert chunks[0..] == chunks;
    while i < |chunks|
      invariant i <= |chunks| && framer.parse == parse && framer.keepalives == 0
      invariant var later := ReadAll(parse, framer.buf, chunks[i..]);
        && d.messages == messages + later.messages && d.error == later.error
        && d.keepalives == keepalives + later.keepalives && d.rest == later.rest
      invariant room.Some? ==> |messages| <= room.value
    {
      assert chunks[i..][0] == chunks[i] && chunks[i..][1..] == chunks[i + 1..];
      ReadStep(parse, framer.buf, chunks[i..]);
      framer.Push(chunks[i]);
      ghost var now := Drain(parse, framer.buf);
      var left := Left(room, |messages|);
      var more: seq<M>, taken: bool;
      more, error, taken := framer.DrainMessages(left);
      TakenThen(room, messages, now.messages, d.messages);
      messages := messages + more;
      if !taken {
        return messages, keepalives, None, framer.buf;
      }
      if error.Some? {
        TakenWhole(room, messages);
        return messages, keepalives, error, framer.buf;
      }
      var skipped := framer.TakeKeepalives();
      keepalives := keepalives + skipped;
      i := i + 1;
    }
    NothingRead(parse, framer.buf, chunks[i..]);
    TakenWhole(room, messages);
    assert messages + [] == messages;
    return messages, keepalives, None, framer.buf;
  }
}
