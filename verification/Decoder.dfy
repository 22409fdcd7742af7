/**
 Decoding a buffer of fanotify events: fixed metadata of 24 bytes, then info records, each
 with its own length. Layout as in fanotify(7), "Reading fanotify events". Bytes are in the
 machine's own order, which is a parameter.
 */
module Decoder {
  import opened Paths

  type Byte = n: nat | n < 256

  datatype Order = Little | Big

  const METADATA_SIZE: nat := 24
  const METADATA_VERSION: nat := 3
  const NO_FD: int := -1
  const DFID_NAME: nat := 2

  // ---- Numbers ----

  function Pow(k: nat): nat {
    if k == 0 then 1 else 256 * Pow(k - 1)
  }

  function FromLittle(s: seq<Byte>): nat {
    if s == [] then 0 else s[0] + 256 * FromLittle(s[1..])
  }

  function ToLittle(n: nat, k: nat): (s: seq<Byte>)
    ensures |s| == k
  {
    if k == 0 then [] else [n % 256] + ToLittle(n / 256, k - 1)
  }

  function Reverse(s: seq<Byte>): (r: seq<Byte>)
    ensures |r| == |s| && forall i | 0 <= i < |s| :: r[i] == s[|s| - 1 - i]
  {
    seq(|s|, i requires 0 <= i < |s| => s[|s| - 1 - i])
  }

  function Number(s: seq<Byte>, order: Order): nat {
    FromLittle(if order.Little? then s else Reverse(s))
  }

  function Encode(n: nat, k: nat, order: Order): (s: seq<Byte>)
    ensures |s| == k
  {
    if order.Little? then ToLittle(n, k) else Reverse(ToLittle(n, k))
  }

  lemma {:induction false} LittleRoundTrip(n: nat, k: nat)
    requires n < Pow(k)
    ensures FromLittle(ToLittle(n, k)) == n
  {
    if k > 0 {
      assert n / 256 < Pow(k - 1);
      LittleRoundTrip(n / 256, k - 1);
    }
  }

  lemma NumberRoundTrip(n: nat, k: nat, order: Order)
    requires n < Pow(k)
    ensures Number(Encode(n, k, order), order) == n
  {
    LittleRoundTrip(n, k);
    var s := ToLittle(n, k);
    assert Reverse(Reverse(s)) == s;
  }

  /** Two's complement on 32 bits. */
  function Signed(n: nat): int {
    if n < 0x8000_0000 then n else n - 0x1_0000_0000
  }

  function Unsigned(i: int): nat
    requires -0x8000_0000 <= i < 0x8000_0000
  {
    if i >= 0 then i else i + 0x1_0000_0000
  }

  // ---- The decoder's meaning ----

  datatype Header = Header(eventLen: nat, version: nat, metadataLen: nat, mask: nat, fd: int, pid: int)

  function HeaderAt(s: seq<Byte>, order: Order): Header
    requires |s| >= METADATA_SIZE
  {
    Header(Number(s[0..4], order), s[4], Number(s[6..8], order), Number(s[8..16], order),
           Signed(Number(s[16..20], order)), Signed(Number(s[20..24], order)))
  }

  datatype Event = Event(mask: nat, fd: int, pid: int, info: Option<seq<Byte>>)

  /** The last name record among the info records in `s`; a bad length ends the search. */
  function LastName(s: seq<Byte>, found: Option<seq<Byte>>, order: Order): Option<seq<Byte>>
    decreases |s|
  {
    if |s| < 4 then found
    else
      var len := Number(s[2..4], order);
      if len == 0 || len > |s| then found
      else LastName(s[len..], if s[0] == DFID_NAME then Some(s[..len]) else found, order)
  }

  predicate StartsEvent(s: seq<Byte>, order: Order) {
    && |s| >= METADATA_SIZE
    && var h := HeaderAt(s, order);
       h.version == METADATA_VERSION && 0 < h.eventLen <= |s|
  }

  function FirstEvent(s: seq<Byte>, order: Order): Event
    requires StartsEvent(s, order)
  {
    var h := HeaderAt(s, order);
    var records := if h.metadataLen <= h.eventLen then s[h.metadataLen..h.eventLen] else [];
    Event(h.mask, h.fd, h.pid, LastName(records, None, order))
  }

  function Decode(s: seq<Byte>, order: Order): seq<Event>
    decreases |s|
  {
    if StartsEvent(s, order) then
      [FirstEvent(s, order)] + Decode(s[HeaderAt(s, order).eventLen..], order)
    else []
  }

  /** The descriptors of `events` that are real. */
  function RealFds(events: seq<Event>): seq<int> {
    if events == [] then []
    else RealFds(events[..|events| - 1]) +
         if events[|events| - 1].fd != NO_FD then [events[|events| - 1].fd] else []
  }

  // ---- The code ----

  lemma SliceOfSlice(s: seq<Byte>, a: nat, b: nat, i: nat, j: nat)
    requires a <= b <= |s| && i <= j <= b - a
    ensures s[a..b][i..j] == s[a + i..a + j]
  {
    var u, v := s[a..b][i..j], s[a + i..a + j];
    assert |u| == |v|;
    assert forall k | 0 <= k < |u| :: u[k] == v[k];
  }

  method FindName(buf: array<Byte>, start: nat, end: nat, order: Order) returns (found: Option<seq<Byte>>)
    requires end <= buf.Length
    ensures found == LastName(if start <= end then buf[start..end] else [], None, order)
  {
    hide Number;
    found := None;
    if start > end {
      return;
    }
    var offset := start;
    while offset + 4 <= end
      invariant start <= offset <= end
      invariant LastName(buf[start..end], None, order) == LastName(buf[offset..end], found, order)
    {
      ghost var rest := buf[offset..end];
      var kind := buf[offset];
      var len := Number(buf[offset + 2..offset + 4], order);
      SliceOfSlice(buf[..], offset, end, 2, 4);
      if len == 0 || offset + len > end {
        break;
      }
      SliceOfSlice(buf[..], offset, end, len, end - offset);
      SliceOfSlice(buf[..], offset, end, 0, len);
      if kind == DFID_NAME {
        found := Some(buf[offset..offset + len]);
      }
      offset := offset + len;
    }
  }

  /** The three checks both loops make before they take an event. */
  method ReadHeader(buf: array<Byte>, offset: nat, n: nat, order: Order) returns (header: Option<Header>)
    requires offset + METADATA_SIZE <= n <= buf.Length
    ensures header.Some? <==> StartsEvent(buf[offset..n], order)
    ensures header.Some? ==> header.value == HeaderAt(buf[offset..n], order) && 0 < header.value.eventLen <= n - offset
  {
    ghost var rest := buf[offset..n];
    var h := HeaderAt(buf[offset..offset + METADATA_SIZE], order);
    assert rest[..METADATA_SIZE] == buf[offset..offset + METADATA_SIZE];
    HeaderPrefix(rest, order);
    if h.version != METADATA_VERSION || h.eventLen == 0 {
      return None;
    }
    if offset + h.eventLen > n {
      return None;
    }
    return Some(h);
  }

  lemma TooShort(s: seq<Byte>, order: Order)
    ensures |s| < METADATA_SIZE ==> !StartsEvent(s, order)
    ensures !StartsEvent(s, order) ==> Decode(s, order) == []
  {
    hide HeaderAt;
  }

  lemma RealFdsGrow(events: seq<Event>, e: Event)
    ensures RealFds(events + [e]) == RealFds(events) + if e.fd != NO_FD then [e.fd] else []
  {
    assert (events + [e])[..|events|] == events;
  }

  /** Both loops over the first `n` bytes; every real descriptor is closed, once, in order. */
  method ReadEvents(buf: array<Byte>, n: nat, order: Order) returns (events: seq<Event>, closed: seq<int>)
    requires n <= buf.Length
    ensures events == Decode(buf[..n], order)
    ensures closed == RealFds(events)
  {
    hide StartsEvent, FirstEvent, HeaderAt, LastName, Decode;
    events, closed := [], [];
    var offset := 0;
    assert buf[0..n] == buf[..n];
    while offset + METADATA_SIZE <= n
      invariant 0 <= offset <= n
      invariant Decode(buf[..n], order) == events + Decode(buf[offset..n], order)
      invariant closed == RealFds(events)
      decreases n - offset
    {
      var header := ReadHeader(buf, offset, n, order);
      if header.None? {
        break;
      }
      var h := header.value;
      var eventEnd := offset + h.eventLen;
      var info := FindName(buf, offset + h.metadataLen, eventEnd, order);
      var event := Event(h.mask, h.fd, h.pid, info);
      TakeEvent(buf[..], offset, n, h, info, order);
      RealFdsGrow(events, event);
      events := events + [event];
      if h.fd != NO_FD {
        closed := closed + [h.fd];
      }
      offset := eventEnd;
    }
    TooShort(buf[offset..n], order);
  }

  lemma TakeEvent(s: seq<Byte>, offset: nat, n: nat, h: Header, info: Option<seq<Byte>>, order: Order)
    requires offset <= n <= |s| && StartsEvent(s[offset..n], order) && h == HeaderAt(s[offset..n], order)
    requires var from := offset + h.metadataLen; var to := offset + h.eventLen;
      info == LastName(if from <= to then s[from..to] else [], None, order)
    ensures Decode(s[offset..n], order) ==
      [Event(h.mask, h.fd, h.pid, info)] + Decode(s[offset + h.eventLen..n], order)
  {
    hide HeaderAt, LastName;
    var rest := s[offset..n];
    assert rest[h.eventLen..] == s[offset + h.eventLen..n];
    if h.metadataLen <= h.eventLen {
      SliceOfSlice(s, offset, n, h.metadataLen, h.eventLen);
    }
  }

  lemma FirstCarriesHeader(s: seq<Byte>, order: Order)
    requires StartsEvent(s, order)
    ensures FirstEvent(s, order).fd == HeaderAt(s, order).fd && FirstEvent(s, order).pid == HeaderAt(s, order).pid
  {
    hide HeaderAt;
  }

  lemma HeaderPrefix(s: seq<Byte>, order: Order)
    requires |s| >= METADATA_SIZE
    ensures HeaderAt(s[..METADATA_SIZE], order) == HeaderAt(s, order)
  {
    var t := s[..METADATA_SIZE];
    assert t[0..4] == s[0..4] && t[6..8] == s[6..8] && t[8..16] == s[8..16];
    assert t[16..20] == s[16..20] && t[20..24] == s[20..24];
  }

  /** The launches an exec-watch read reports: every real descriptor that resolves. */
  function Execs(events: seq<Event>, links: map<int, Path>): seq<(int, Path)> {
    if events == [] then []
    else
      var e := events[|events| - 1];
      Execs(events[..|events| - 1], links) +
        if e.fd != NO_FD && e.fd in links then [(e.pid, links[e.fd])] else []
  }

  lemma ExecsGrow(events: seq<Event>, e: Event, links: map<int, Path>)
    ensures Execs(events + [e], links) ==
      Execs(events, links) + if e.fd != NO_FD && e.fd in links then [(e.pid, links[e.fd])] else []
  {
    assert (events + [e])[..|events|] == events;
  }

  /** The exec-watch loop: resolve the descriptor while it is open, close it in any case. */
  method ReadExecEvents(buf: array<Byte>, n: nat, order: Order, links: map<int, Path>)
    returns (execs: seq<(int, Path)>, closed: seq<int>)
    requires n <= buf.Length
    ensures execs == Execs(Decode(buf[..n], order), links)
    ensures closed == RealFds(Decode(buf[..n], order))
  {
    hide StartsEvent, FirstEvent, HeaderAt, LastName;
    execs, closed := [], [];
    var offset := 0;
    ghost var events: seq<Event> := [];
    assert buf[0..n] == buf[..n];
    while offset + METADATA_SIZE <= n
      invariant 0 <= offset <= n
      invariant Decode(buf[..n], order) == events + Decode(buf[offset..n], order)
      invariant closed == RealFds(events) && execs == Execs(events, links)
      decreases n - offset
    {
      var header := ReadHeader(buf, offset, n, order);
      if header.None? {
        break;
      }
      var h := header.value;
      ghost var event := FirstEvent(buf[offset..n], order);
      FirstCarriesHeader(buf[offset..n], order);
      RealFdsGrow(events, event);
      ExecsGrow(events, event, links);
      assert buf[offset..n][h.eventLen..] == buf[offset + h.eventLen..n];
      events := events + [event];
      if h.fd != NO_FD {
        if h.fd in links {
          execs := execs + [(h.pid, links[h.fd])];
        }
        closed := closed + [h.fd];
      }
      offset := offset + h.eventLen;
    }
    TooShort(buf[offset..n], order);
    assert Decode(buf[..n], order) == events;
  }

  // ---- What a kernel writes, and that it is read back ----

  datatype InfoRecord = InfoRecord(kind: Byte, pad: Byte, payload: seq<Byte>)

  datatype KernelEvent = KernelEvent(reserved: Byte, mask: nat, fd: int, pid: int, records: seq<InfoRecord>)

  function RecordBytes(r: InfoRecord, order: Order): seq<Byte> {
    [r.kind, r.pad] + Encode(4 + |r.payload|, 2, order) + r.payload
  }

  function RecordsBytes(rs: seq<InfoRecord>, order: Order): seq<Byte> {
    if rs == [] then [] else RecordBytes(rs[0], order) + RecordsBytes(rs[1..], order)
  }

  function EventBytes(e: KernelEvent, order: Order): seq<Byte>
    requires Representable(e, order)
  {
    var body := RecordsBytes(e.records, order);
    Encode(24 + |body|, 4, order) + [3, e.reserved] + Encode(24, 2, order)
    + Encode(e.mask, 8, order) + Encode(Unsigned(e.fd), 4, order) + Encode(Unsigned(e.pid), 4, order) + body
  }

  /** Everything fits its field. */
  predicate Representable(e: KernelEvent, order: Order) {
    && e.mask < Pow(8)
    && -0x8000_0000 <= e.fd < 0x8000_0000 && -0x8000_0000 <= e.pid < 0x8000_0000
    && (forall r | r in e.records :: 4 + |r.payload| < Pow(2))
    && 24 + |RecordsBytes(e.records, order)| < Pow(4)
  }

  function BufferBytes(es: seq<KernelEvent>, order: Order): seq<Byte>
    requires forall e | e in es :: Representable(e, order)
  {
    if es == [] then [] else EventBytes(es[0], order) + BufferBytes(es[1..], order)
  }

  function LastNameRecord(rs: seq<InfoRecord>, found: Option<seq<Byte>>, order: Order): Option<seq<Byte>> {
    if rs == [] then found
    else LastNameRecord(rs[1..], if rs[0].kind == 2 then Some(RecordBytes(rs[0], order)) else found, order)
  }

  function Delivered(e: KernelEvent, order: Order): Event {
    Event(e.mask, e.fd, e.pid, LastNameRecord(e.records, None, order))
  }

  lemma {:induction false} RecordsReadBack(rs: seq<InfoRecord>, found: Option<seq<Byte>>, order: Order)
    requires forall r | r in rs :: 4 + |r.payload| < Pow(2)
    ensures LastName(RecordsBytes(rs, order), found, order) == LastNameRecord(rs, found, order)
    decreases |rs|
  {
    if rs != [] {
      var r := rs[0];
      var s := RecordsBytes(rs, order);
      var first := RecordBytes(r, order);
      assert r in rs;
      assert s[2..4] == Encode(4 + |r.payload|, 2, order);
      NumberRoundTrip(4 + |r.payload|, 2, order);
      assert s[..|first|] == first && s[|first|..] == RecordsBytes(rs[1..], order);
      RecordsReadBack(rs[1..], if r.kind == DFID_NAME then Some(first) else found, order);
    }
  }

  lemma HeaderReadBack(e: KernelEvent, rest: seq<Byte>, order: Order)
    requires Representable(e, order)
    ensures var body := RecordsBytes(e.records, order); var s := EventBytes(e, order) + rest;
      HeaderAt(s, order) == Header(24 + |body|, 3, 24, e.mask, e.fd, e.pid)
  {
    hide Encode, ToLittle, Number;
    var body := RecordsBytes(e.records, order);
    var s := EventBytes(e, order) + rest;
    NumberRoundTrip(METADATA_SIZE + |body|, 4, order);
    NumberRoundTrip(METADATA_SIZE, 2, order);
    NumberRoundTrip(e.mask, 8, order);
    assert Pow(4) == 0x1_0000_0000;
    NumberRoundTrip(Unsigned(e.fd), 4, order);
    NumberRoundTrip(Unsigned(e.pid), 4, order);
    assert s[0..4] == Encode(METADATA_SIZE + |body|, 4, order);
    assert s[6..8] == Encode(METADATA_SIZE, 2, order);
    assert s[8..16] == Encode(e.mask, 8, order);
    assert s[16..20] == Encode(Unsigned(e.fd), 4, order);
    assert s[20..24] == Encode(Unsigned(e.pid), 4, order);
  }

  lemma FirstReadBack(e: KernelEvent, rest: seq<Byte>, order: Order)
    requires Representable(e, order)
    ensures var s := EventBytes(e, order) + rest;
      StartsEvent(s, order) && FirstEvent(s, order) == Delivered(e, order)
      && s[HeaderAt(s, order).eventLen..] == rest
  {
    var bytes := EventBytes(e, order);
    var body := RecordsBytes(e.records, order);
    var s := bytes + rest;
    HeaderReadBack(e, rest, order);
    assert s[METADATA_SIZE..METADATA_SIZE + |body|] == body;
    assert s[METADATA_SIZE + |body|..] == rest;
    RecordsReadBack(e.records, None, order);
  }

  function AllDelivered(es: seq<KernelEvent>, order: Order): (events: seq<Event>)
    ensures |events| == |es| && forall i | 0 <= i < |es| :: events[i] == Delivered(es[i], order)
  {
    seq(|es|, i requires 0 <= i < |es| => Delivered(es[i], order))
  }

  /** Decoding an encoded list of events gives exactly that list, and stops at what follows. */
  lemma {:induction false} EventsReadBack(es: seq<KernelEvent>, rest: seq<Byte>, order: Order)
    requires forall e | e in es :: Representable(e, order)
    requires !StartsEvent(rest, order)
    ensures Decode(BufferBytes(es, order) + rest, order) == AllDelivered(es, order)
    decreases |es|
  {
    hide StartsEvent, FirstEvent, HeaderAt, EventBytes, Representable, Delivered;
    var s := BufferBytes(es, order) + rest;
    if es == [] {
      assert s == rest;
    } else {
      var tail := BufferBytes(es[1..], order) + rest;
      assert s == EventBytes(es[0], order) + tail;
      FirstReadBack(es[0], tail, order);
      EventsReadBack(es[1..], rest, order);
      assert AllDelivered(es, order) == [Delivered(es[0], order)] + AllDelivered(es[1..], order);
    }
  }

  // ---- The bytes by their places ----

  function Word(a: Byte, b: Byte, c: Byte, d: Byte): nat {
    a + 0x100 * b + 0x1_0000 * c + 0x100_0000 * d
  }

  lemma FourByPlace(s: seq<Byte>, order: Order)
    requires |s| == 4
    ensures Number(s, order) == if order.Little? then Word(s[0], s[1], s[2], s[3]) else Word(s[3], s[2], s[1], s[0])
  {
    FourLittle(s);
    FourLittle(Reverse(s));
  }

  lemma FourLittle(s: seq<Byte>)
    requires |s| == 4
    ensures FromLittle(s) == Word(s[0], s[1], s[2], s[3])
  {
    var t := s[1..];
    assert t[1..] == s[2..] && t[1..][1..] == s[3..];
    assert FromLittle(s[3..]) == s[3];
    assert FromLittle(s[2..]) == s[2] + 256 * FromLittle(s[3..]);
    assert FromLittle(t) == s[1] + 256 * FromLittle(s[2..]);
  }

  lemma EightLittle(s: seq<Byte>)
    requires |s| == 8
    ensures FromLittle(s) == Word(s[0], s[1], s[2], s[3]) + 0x1_0000_0000 * Word(s[4], s[5], s[6], s[7])
  {
    var t := s[4..];
    FourLittle(t);
    assert s[1..][1..] == s[2..] && s[2..][1..] == s[3..] && s[3..][1..] == t;
    assert FromLittle(s[3..]) == s[3] + 256 * FromLittle(t);
    assert FromLittle(s[2..]) == s[2] + 256 * FromLittle(s[3..]);
    assert FromLittle(s[1..]) == s[1] + 256 * FromLittle(s[2..]);
  }

  lemma EightByPlace(s: seq<Byte>, order: Order)
    requires |s| == 8
    ensures Number(s, order) ==
      if order.Little? then Word(s[0], s[1], s[2], s[3]) + 0x1_0000_0000 * Word(s[4], s[5], s[6], s[7])
      else Word(s[7], s[6], s[5], s[4]) + 0x1_0000_0000 * Word(s[3], s[2], s[1], s[0])
  {
    EightLittle(s);
    EightLittle(Reverse(s));
  }

  /** The 32-bit number at `i`. */
  function WordAt(s: seq<Byte>, i: nat, order: Order): nat
    requires i + 4 <= |s|
  {
    if order.Little? then Word(s[i], s[i + 1], s[i + 2], s[i + 3]) else Word(s[i + 3], s[i + 2], s[i + 1], s[i])
  }

  lemma WordIsNumber(s: seq<Byte>, i: nat, order: Order)
    requires i + 4 <= |s|
    ensures Number(s[i..i + 4], order) == WordAt(s, i, order)
  {
    FourByPlace(s[i..i + 4], order);
  }

  /**
   An event begins where there are 24 bytes left, the fifth is 3, and the first four are a length that
   is not zero and not more than what is left. Its mask is at 8, its descriptor at 16 and its process
   at 20, the last two signed; the next event begins behind its length.
   */
  lemma DecodesByPlace(s: seq<Byte>, order: Order)
    ensures Decode(s, order) != [] <==> |s| >= 24 && s[4] == 3 && 0 < WordAt(s, 0, order) <= |s|
    ensures Decode(s, order) != [] ==>
      var e, fd, pid := Decode(s, order)[0], WordAt(s, 16, order), WordAt(s, 20, order);
      && e.mask == (if order.Little? then WordAt(s, 8, order) + 0x1_0000_0000 * WordAt(s, 12, order)
                    else WordAt(s, 12, order) + 0x1_0000_0000 * WordAt(s, 8, order))
      && e.fd == (if fd >= 0x8000_0000 then fd - 0x1_0000_0000 else fd)
      && e.pid == (if pid >= 0x8000_0000 then pid - 0x1_0000_0000 else pid)
      && Decode(s, order)[1..] == Decode(s[WordAt(s, 0, order)..], order)
  {
    hide Number, LastName, Word;
    if |s| >= 24 {
      WordIsNumber(s, 0, order);
      WordIsNumber(s, 16, order);
      WordIsNumber(s, 20, order);
      EightByPlace(s[8..16], order);
    }
  }

  function Pair(a: Byte, b: Byte): nat {
    a + 0x100 * b
  }

  /** The 16-bit number at `i`. */
  function HalfAt(s: seq<Byte>, i: nat, order: Order): nat
    requires i + 2 <= |s|
  {
    if order.Little? then Pair(s[i], s[i + 1]) else Pair(s[i + 1], s[i])
  }

  lemma HalfIsNumber(s: seq<Byte>, i: nat, order: Order)
    requires i + 2 <= |s|
    ensures Number(s[i..i + 2], order) == HalfAt(s, i, order)
  {
    var t := if order.Little? then s[i..i + 2] else Reverse(s[i..i + 2]);
    var low: nat, high: nat := t[0], t[1];
    assert FromLittle(t[1..]) == high;
    assert FromLittle(t) == low + 256 * high;
  }

  /** A record of the kind 2 stands at `o`, as long as it says, and is the bytes found. */
  predicate NameAt(s: seq<Byte>, o: nat, info: seq<Byte>, order: Order) {
    && o + 4 <= |s| && s[o] == 2 && 0 < HalfAt(s, o + 2, order) && o + HalfAt(s, o + 2, order) <= |s|
    && info == s[o..o + HalfAt(s, o + 2, order)]
  }

  lemma {:induction false} FoundNameIsThere(s: seq<Byte>, found: Option<seq<Byte>>, order: Order) returns (o: nat)
    requires LastName(s, found, order).Some? && LastName(s, found, order) != found
    ensures o + 4 <= |s| && NameAt(s, o, LastName(s, found, order).value, order)
    decreases |s|
  {
    hide Number, HalfAt;
    HalfIsNumber(s, 2, order);
    var len := HalfAt(s, 2, order);
    var found' := if s[0] == DFID_NAME then Some(s[..len]) else found;
    if LastName(s[len..], found', order) == found' {
      o := 0;
      assert s[..len] == s[0..len];
    } else {
      var rest := FoundNameIsThere(s[len..], found', order);
      o := len + rest;
      NameFurther(s, len, rest, LastName(s, found, order).value, order);
      hide NameAt;
    }
  }

  lemma NameFurther(s: seq<Byte>, len: nat, o: nat, info: seq<Byte>, order: Order)
    requires len <= |s| && NameAt(s[len..], o, info, order)
    ensures NameAt(s, len + o, info, order)
  {
    var n := HalfAt(s[len..], o + 2, order);
    assert HalfAt(s, len + o + 2, order) == n;
    assert s[len..][o..o + n] == s[len + o..len + o + n];
  }

  lemma InfoOfFirst(s: seq<Byte>, order: Order)
    requires Decode(s, order) != []
    ensures |s| >= 24 && WordAt(s, 0, order) <= |s|
    ensures var from, to := HalfAt(s, 6, order), WordAt(s, 0, order);
      Decode(s, order)[0].info == LastName(if from <= to then s[from..to] else [], None, order)
  {
    hide Number, LastName, WordAt, HalfAt;
    WordIsNumber(s, 0, order);
    HalfIsNumber(s, 6, order);
  }

  /** The information delivered is a name record behind the metadata, whose size is at 6, and inside the event. */
  lemma InfoByPlace(s: seq<Byte>, order: Order) returns (o: nat)
    requires Decode(s, order) != [] && Decode(s, order)[0].info.Some?
    ensures |s| >= 24 && HalfAt(s, 6, order) <= o && WordAt(s, 0, order) <= |s|
    ensures NameAt(s[..WordAt(s, 0, order)], o, Decode(s, order)[0].info.value, order)
  {
    hide Decode, WordAt, HalfAt, NameAt;
    InfoOfFirst(s, order);
    var from, to := HalfAt(s, 6, order), WordAt(s, 0, order);
    var records := if from <= to then s[from..to] else [];
    var at := FoundNameIsThere(records, None, order);
    o := from + at;
    if from <= to {
      assert s[..to][from..] == records;
      NameFurther(s[..to], from, at, Decode(s, order)[0].info.value, order);
    }
  }

  function Fds(events: seq<Event>): (fds: seq<int>)
    ensures |fds| == |events| && forall i | 0 <= i < |events| :: fds[i] == events[i].fd
  {
    seq(|events|, i requires 0 <= i < |events| => events[i].fd)
  }

  lemma OneMoreFd(events: seq<Event>, e: Event, fd: int)
    ensures multiset(Fds(events + [e]))[fd] == multiset(Fds(events))[fd] + if e.fd == fd then 1 else 0
    ensures multiset(RealFds(events + [e]))[fd] ==
      multiset(RealFds(events))[fd] + if e.fd == fd && fd != -1 then 1 else 0
  {
    RealFdsGrow(events, e);
    hide RealFds;
    assert Fds(events + [e]) == Fds(events) + [e.fd];
  }

  /** Every real descriptor is closed as often as it was reported, and no other one. */
  lemma {:induction false} ClosedExactly(events: seq<Event>, fd: int)
    ensures multiset(RealFds(events))[fd] == if fd == -1 then 0 else multiset(Fds(events))[fd]
  {
    if events != [] {
      var before, e := events[..|events| - 1], events[|events| - 1];
      assert events == before + [e];
      ClosedExactly(before, fd);
      OneMoreFd(before, e, fd);
      hide *;
    }
  }

  predicate Execution(e: Event, links: map<int, Path>, pid: int, exe: Path) {
    e.pid == pid && e.fd != -1 && e.fd in links && links[e.fd] == exe
  }

  /** Exactly the executions whose real descriptor resolves are reported, each for its process. */
  lemma {:induction false} ExecsExactly(events: seq<Event>, links: map<int, Path>, pid: int, exe: Path)
    ensures (pid, exe) in Execs(events, links) <==> exists e :: e in events && Execution(e, links, pid, exe)
  {
    if events != [] {
      var before, last := events[..|events| - 1], events[|events| - 1];
      assert events == before + [last];
      ExecsGrow(before, last, links);
      ExecsExactly(before, links, pid, exe);
      forall e ensures e in events <==> e in before || e == last {
      }
      if Execution(last, links, pid, exe) {
        assert (pid, exe) in Execs(events, links);
      }
    }
  }

  /** `s` is cut at `cuts` into whole events followed by bytes that start none. */
  predicate CutsInto(s: seq<Byte>, cuts: seq<nat>, events: seq<Event>, order: Order) {
    && |cuts| == |events| + 1
    && (forall i | 0 <= i < |cuts| :: cuts[i] <= |s|)
    && (forall i | 0 <= i < |events| :: EventBetween(s, cuts[i], cuts[i + 1], events[i], order))
    && cuts[0] == 0 && !StartsEvent(s[cuts[|events|]..], order)
  }

  predicate EventBetween(s: seq<Byte>, from: nat, to: nat, e: Event, order: Order) {
    && from < to <= |s| && StartsEvent(s[from..], order)
    && to - from == HeaderAt(s[from..], order).eventLen && e == FirstEvent(s[from..], order)
  }

  /** On arbitrary bytes: decoding takes whole events off the front, and stops before a non-event. */
  lemma {:induction false} DecodesAPrefix(s: seq<Byte>, order: Order) returns (cuts: seq<nat>)
    ensures CutsInto(s, cuts, Decode(s, order), order)
    decreases |s|
  {
    hide HeaderAt, FirstEvent, CutsInto;
    if StartsEvent(s, order) {
      var len := HeaderAt(s, order).eventLen;
      var rest := DecodesAPrefix(s[len..], order);
      cuts := OneMoreCut(s, rest, Decode(s[len..], order), order);
    } else {
      cuts := [0];
      NoEvent(s, order);
    }
  }

  lemma NoEvent(s: seq<Byte>, order: Order)
    requires !StartsEvent(s, order)
    ensures CutsInto(s, [0], [], order)
  {
    hide StartsEvent;
    assert s[0..] == s;
  }

  lemma OneMoreCut(s: seq<Byte>, rest: seq<nat>, later: seq<Event>, order: Order) returns (cuts: seq<nat>)
    requires StartsEvent(s, order) && CutsInto(s[HeaderAt(s, order).eventLen..], rest, later, order)
    ensures CutsInto(s, cuts, [FirstEvent(s, order)] + later, order)
  {
    hide HeaderAt, FirstEvent;
    var len := HeaderAt(s, order).eventLen;
    var events := [FirstEvent(s, order)] + later;
    cuts := [0] + seq(|rest|, i requires 0 <= i < |rest| => len + rest[i]);
    assert s[0..] == s;
    assert EventBetween(s, cuts[0], cuts[1], events[0], order);
    forall i | 0 < i <= |later| ensures EventBetween(s, cuts[i], cuts[i + 1], events[i], order) {
      Deeper(s, len, rest[i - 1], rest[i], later[i - 1], order);
    }
    assert s[len..][rest[|later|]..] == s[cuts[|later| + 1]..];
  }

  lemma Deeper(s: seq<Byte>, len: nat, from: nat, to: nat, e: Event, order: Order)
    requires len <= |s| && EventBetween(s[len..], from, to, e, order)
    ensures EventBetween(s, len + from, len + to, e, order)
  {
    assert s[len..][from..] == s[len + from..];
  }

  // ---- Name records ----

  function UpToNul(s: seq<Byte>): seq<Byte> {
    if s == [] || s[0] == 0 then [] else [s[0]] + UpToNul(s[1..])
  }

  function Chars(s: seq<Byte>): Name {
    seq(|s|, i requires 0 <= i < |s| => s[i] as char)
  }

  /** What the running system answers: directories by file handle, and whether bytes are UTF-8. */
  datatype System = System(openHandle: map<seq<Byte>, Path>, utf8: set<seq<Byte>>)

  function ResolveInfoRecord(sys: System, info: seq<Byte>, order: Order): Option<Path> {
    if |info| < 20 then None
    else
      var nameOff := 20 + Number(info[12..16], order);
      if nameOff > |info| then None
      else
        var handle := info[12..nameOff];
        var name := UpToNul(info[nameOff..]);
        if handle !in sys.openHandle || name !in sys.utf8 then None
        else if name == [] || Chars(name) == "." then Some(sys.openHandle[handle])
        else Some(sys.openHandle[handle] + [Chars(name)])
  }

  /** Info header, file system id, file handle, name, NUL, padding. */
  function NameRecord(pad: Byte, fsid: seq<Byte>, kind: seq<Byte>, handle: seq<Byte>, name: seq<Byte>,
                      padding: seq<Byte>, order: Order): InfoRecord
    requires |fsid| == 8 && |kind| == 4
  {
    InfoRecord(2, pad, fsid + Encode(|handle|, 4, order) + kind + handle + name + [0] + padding)
  }

  lemma {:induction false} NameStopsAtNul(name: seq<Byte>, after: seq<Byte>)
    requires 0 !in name
    ensures UpToNul(name + [0] + after) == name
  {
    var s := name + [0] + after;
    if name != [] {
      assert s[1..] == name[1..] + [0] + after;
      NameStopsAtNul(name[1..], after);
    }
  }

  /** A name record resolves to its directory joined with its name, whatever pads it. */
  lemma NameRecordResolves(sys: System, pad: Byte, fsid: seq<Byte>, kind: seq<Byte>, handle: seq<Byte>,
                           name: seq<Byte>, padding: seq<Byte>, order: Order)
    requires |fsid| == 8 && |kind| == 4 && |handle| < Pow(4) && 0 !in name
    ensures var info := RecordBytes(NameRecord(pad, fsid, kind, handle, name, padding, order), order);
      var key := Encode(|handle|, 4, order) + kind + handle;
      ResolveInfoRecord(sys, info, order) ==
        if key !in sys.openHandle || name !in sys.utf8 then None
        else if name == [] || Chars(name) == "." then Some(sys.openHandle[key])
        else Some(sys.openHandle[key] + [Chars(name)])
  {
    hide Encode, Number, UpToNul;
    var info := RecordBytes(NameRecord(pad, fsid, kind, handle, name, padding, order), order);
    var key := Encode(|handle|, 4, order) + kind + handle;
    assert info[12..16] == Encode(|handle|, 4, order);
    NumberRoundTrip(|handle|, 4, order);
    assert info[12..20 + |handle|] == key;
    assert info[20 + |handle|..] == name + [0] + padding;
    NameStopsAtNul(name, padding);
  }
}
