/**
 * The checks `handleScanResult` (src/app/page.tsx) makes on a scanned QR
 * value before joining a room: same origin, a `/room/<id>` path, and a room
 * that exists.
 */
module RoomLink {
  import opened Wrappers

  /** What `new URL(value)` yields that the checks look at. */
  datatype Url = Url(originMatches: bool, pathname: string)

  /** The answer of `getDoc` for a room id: it exists, it does not, or the call throws. */
  datatype Lookup = Exists | Missing | Failed

  /** Either a navigation to a path or the error message shown. */
  datatype Outcome = Navigate(path: string) | ScanError(msg: string)

  /** The handler's effects: the new `scanning` flag and the outcome. */
  datatype Effect = Effect(scanning: bool, outcome: Outcome)

  /** `s.split("/")`: the pieces between slashes, empty ones included; never an empty list. */
  function Split(s: string): (r: seq<string>)
    ensures |r| >= 1
  {
    if s == [] then [[]]
    else
      var rest := Split(s[1..]);
      if s[0] == '/' then [[]] + rest
      else [[s[0]] + rest[0]] + rest[1..]
  }

  /** The pieces put back together with slashes between them. */
  function Join(parts: seq<string>): string
    requires |parts| >= 1
  {
    if |parts| == 1 then parts[0] else parts[0] + "/" + Join(parts[1..])
  }

  /** Splitting on `/` loses nothing: joining the pieces gives the text back. */
  lemma {:induction false} SplitJoin(s: string)
    ensures Join(Split(s)) == s
  {
    if s != [] {
      SplitJoin(s[1..]);
      var rest := Split(s[1..]);
      if s[0] == '/' {
        assert s == "/" + s[1..];
      } else if |rest| == 1 {
        assert s == [s[0]] + s[1..];
      } else {
        assert s == [s[0]] + s[1..];
        assert ([[s[0]] + rest[0]] + rest[1..])[1..] == rest[1..];
      }
    }
  }

  /** `.filter(Boolean)`: the non-empty pieces, in order. */
  function NonEmpty(parts: seq<string>): (r: seq<string>)
    ensures |r| <= |parts|
  {
    if parts == [] then []
    else if parts[0] == [] then NonEmpty(parts[1..])
    else [parts[0]] + NonEmpty(parts[1..])
  }

  /** The path's segments: the non-empty pieces between slashes. */
  function Segments(path: string): seq<string>
  {
    NonEmpty(Split(path))
  }

  /** No piece of a split contains a slash. */
  lemma {:induction false} SplitPieces(s: string)
    ensures forall k | 0 <= k < |Split(s)| :: '/' !in Split(s)[k]
  {
    if s != [] {
      SplitPieces(s[1..]);
    }
  }

  /** The filter keeps exactly the non-empty pieces, each one taken from the input. */
  lemma {:induction false} NonEmptyPieces(parts: seq<string>)
    ensures forall k | 0 <= k < |NonEmpty(parts)| :: NonEmpty(parts)[k] != [] && NonEmpty(parts)[k] in parts
    ensures forall k | 0 <= k < |parts| && parts[k] != [] :: parts[k] in NonEmpty(parts)
  {
    if parts != [] {
      NonEmptyPieces(parts[1..]);
      assert forall k | 1 <= k < |parts| :: parts[k] == parts[1..][k - 1];
    }
  }

  /** Every segment is non-empty and free of slashes. */
  lemma SegmentsShape(path: string)
    ensures forall k | 0 <= k < |Segments(path)| :: Segments(path)[k] != [] && '/' !in Segments(path)[k]
  {
    SplitPieces(path);
    NonEmptyPieces(Split(path));
  }

  /** `/room/<id>` with at least one more segment to take the id from. */
  predicate IsRoomPath(segs: seq<string>)
  {
    |segs| >= 2 && segs[0] == "room"
  }

  /**
   * `handleScanResult(value)`. `url` is None when `new URL(value)` throws;
   * `rooms` answers `getDoc` for each room id. Scanning is switched off first,
   * whatever follows.
   */
  function HandleScan(url: Option<Url>, rooms: string -> Lookup): (e: Effect)
    ensures !e.scanning
    ensures e.outcome.Navigate? <==>
      url.Some? && url.value.originMatches && IsRoomPath(Segments(url.value.pathname))
      && rooms(Segments(url.value.pathname)[1]) == Exists
    ensures e.outcome.Navigate? ==> e.outcome.path == "/room/" + Segments(url.value.pathname)[1]
    ensures url.Some? && !url.value.originMatches ==> e.outcome == ScanError("Invalid QR code origin")
  {
    Effect(false, Check(url, rooms))
  }

  /** The checks inside the `try`, in order, each ending the handler when it fails. */
  function Check(url: Option<Url>, rooms: string -> Lookup): Outcome
  {
    match url
    case None => ScanError("Invalid QR code")
    case Some(u) =>
      if !u.originMatches then ScanError("Invalid QR code origin")
      else
        var parts := Segments(u.pathname);
        if !IsRoomPath(parts) then ScanError("QR code not a room link")
        else
          var rid := parts[1];
          match rooms(rid)
          case Failed => ScanError("Invalid QR code")
          case Missing => ScanError("Room does not exist")
          case Exists => Navigate("/room/" + rid)
  }

  /** Each error message and the check it comes from. */
  lemma ErrorCases(url: Option<Url>, rooms: string -> Lookup)
    ensures url.None? ==> HandleScan(url, rooms).outcome == ScanError("Invalid QR code")
    ensures url.Some? && url.value.originMatches && !IsRoomPath(Segments(url.value.pathname)) ==>
      HandleScan(url, rooms).outcome == ScanError("QR code not a room link")
    ensures url.Some? && url.value.originMatches && IsRoomPath(Segments(url.value.pathname)) ==>
      var rid := Segments(url.value.pathname)[1];
      && (rooms(rid) == Missing ==> HandleScan(url, rooms).outcome == ScanError("Room does not exist"))
      && (rooms(rid) == Failed ==> HandleScan(url, rooms).outcome == ScanError("Invalid QR code"))
  {
  }

  lemma SplitCons(c: char, t: string)
    ensures Split([c] + t) == if c == '/' then [[]] + Split(t) else [[c] + Split(t)[0]] + Split(t)[1..]
  {
    assert ([c] + t)[0] == c && ([c] + t)[1..] == t;
  }

  /** One more leading character on the left part keeps the pieces lined up. */
  lemma SplitAtSlashCons(c: char, a: string, b: string)
    requires Split(a + "/" + b) == Split(a) + Split(b)
    ensures Split([c] + a + "/" + b) == Split([c] + a) + Split(b)
  {
    assert [c] + a + "/" + b == [c] + (a + "/" + b);
    var l, m, r := Split(a), Split(b), Split(a + "/" + b);
    SplitCons(c, a + "/" + b);
    SplitCons(c, a);
    if c == '/' {
      LeadingEmpty(l, m);
    } else {
      JoinFirst([c] + l[0], l, m);
    }
  }

  lemma LeadingEmpty(l: seq<string>, m: seq<string>)
    ensures [[]] + (l + m) == ([[]] + l) + m
  {
  }

  lemma JoinFirst(w: string, l: seq<string>, m: seq<string>)
    requires |l| >= 1
    ensures [w] + (l + m)[1..] == ([w] + l[1..]) + m
  {
    assert (l + m)[1..] == l[1..] + m;
  }

  /** Splitting at one slash: the pieces of the left part, then those of the right. */
  lemma {:induction false} SplitAtSlash(a: string, b: string)
    ensures Split(a + "/" + b) == Split(a) + Split(b)
  {
    if a == [] {
      assert a + "/" + b == ['/'] + b;
      SplitCons('/', b);
      assert Split(a) == [[]];
    } else {
      SplitAtSlash(a[1..], b);
      SplitAtSlashCons(a[0], a[1..], b);
      assert a == [a[0]] + a[1..];
    }
  }

  /** The segments of `a/b` are those of `a` followed by those of `b`, so doubled slashes change nothing. */
  lemma SegmentsAtSlash(a: string, b: string)
    ensures Segments(a + "/" + b) == Segments(a) + Segments(b)
  {
    SplitAtSlash(a, b);
    NonEmptyAppend(Split(a), Split(b));
  }

  /** A single non-empty word without slashes is one segment. */
  lemma SegmentsOfWord(w: string)
    requires '/' !in w
    ensures Segments(w) == if w == [] then [] else [w]
  {
    SplitNoSlash(w);
    assert [w][1..] == [];
  }

  /** A doubled slash splits no differently from a single one once empty pieces are dropped. */
  lemma DoubledSlash(a: string, b: string)
    ensures Segments(a + "/" + "/" + b) == Segments(a + "/" + b)
  {
    var e := "";
    SegmentsOfWord(e);
    SegmentsAtSlash(a + "/", b);
    SegmentsAtSlash(a, e);
    assert a + "/" + e == a + "/";
    SegmentsAtSlash(a, b);
  }

  /** The example `//room//abc` (written as its pieces) has the segments `room` and `abc`. */
  lemma DoubleSlashes()
    ensures Segments("/" + "/" + "room" + "/" + "/" + "abc") == ["room", "abc"]
  {
    var e, room, abc := "", "room", "abc";
    SegmentsOfWord(e);
    SegmentsOfWord(room);
    SegmentsOfWord(abc);
    DoubledSlash(e, room);
    assert e + "/" + "/" + room == "/" + "/" + room;
    SegmentsAtSlash(e, room);
    var a := "/" + "/" + room;
    DoubledSlash(a, abc);
    SegmentsAtSlash(a, abc);
  }

  lemma {:induction false} SplitNoSlash(s: string)
    requires '/' !in s
    ensures Split(s) == [s]
  {
    if s != [] {
      SplitNoSlash(s[1..]);
      assert [s[0]] + s[1..] == s;
    }
  }

  /**
   * The filter keeps order and multiplicity: it distributes over `+`, keeps a
   * single non-empty piece and drops a single empty one. With `NonEmpty([]) == []`
   * these pin the filter down on every list.
   */
  lemma {:induction false} NonEmptyAppend(a: seq<string>, b: seq<string>)
    ensures NonEmpty(a + b) == NonEmpty(a) + NonEmpty(b)
    ensures |a| == 1 ==> NonEmpty(a) == (if a[0] == [] then [] else a)
  {
    if |a| == 1 {
      assert a[1..] == [];
    }
    if a == [] {
      assert a + b == b;
    } else {
      assert (a + b)[0] == a[0] && (a + b)[1..] == a[1..] + b;
      NonEmptyAppend(a[1..], b);
      if a[0] != [] {
        assert [a[0]] + (NonEmpty(a[1..]) + NonEmpty(b)) == [a[0]] + NonEmpty(a[1..]) + NonEmpty(b);
      }
    }
  }

  /** A room's own link, `/room/<rid>`, has `room` and `rid` as its segments, for any id without a slash. */
  lemma RoomPathSegments(rid: string)
    requires rid != [] && '/' !in rid
    ensures Segments("/room/" + rid) == ["room", rid]
  {
    var e, room, slash := "", "room", "/";
    SegmentsOfWord(e);
    SegmentsOfWord(room);
    SegmentsOfWord(rid);
    SegmentsAtSlash(e, room);
    SegmentsAtSlash(e + slash + room, rid);
    assert "/room/" == e + slash + room + slash;
  }

  /**
   * The round trip: a same-origin link to an existing room's own path
   * navigates to exactly that path.
   */
  lemma RoomLinkRoundTrip(rid: string, rooms: string -> Lookup)
    requires rid != [] && '/' !in rid && rooms(rid) == Exists
    ensures HandleScan(Some(Url(true, "/room/" + rid)), rooms) == Effect(false, Navigate("/room/" + rid))
  {
    RoomPathSegments(rid);
  }

  /** Segments after the room id play no part. */
  lemma LaterSegmentsIgnored(u: Url, v: Url, rooms: string -> Lookup)
    requires u.originMatches == v.originMatches
    requires IsRoomPath(Segments(u.pathname)) && IsRoomPath(Segments(v.pathname))
    requires Segments(u.pathname)[1] == Segments(v.pathname)[1]
    ensures HandleScan(Some(u), rooms) == HandleScan(Some(v), rooms)
  {
  }
}
