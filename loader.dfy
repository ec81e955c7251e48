/** The data-file loader: a line-by-line state machine that switches
    between a places section and a connections section, numbers places in
    file order and accepts a connection only when both of its endpoints
    are places already read. */
module Loader {
  import opened Graph
  import opened Analysis

  /** What reading `name balance priority soil` from a line yields. */
  datatype PlaceFields = PlaceFields(name: string, balance: int, priority: int, soil: string)

  /** What reading `u v capacity cost` from a line yields. */
  datatype ConnFields = ConnFields(u: int, v: int, capacity: int, cost: int)

  /** One line of the file: its text, and the outcome of extracting a place
      record and a connection record from it (None when extraction fails).
      Number parsing itself is not modelled; only its outcome is. */
  datatype Line = Line(text: string, asPlace: Option<PlaceFields>, asConn: Option<ConnFields>)

  /** The two section flags; they are never both set, so three modes. */
  datatype Mode = Preamble | ReadingPlaces | ReadingConnections

  datatype LoadState = LoadState(mode: Mode, places: seq<Place>, conns: seq<Connection>)

  const PLACES_HEADER: string := "[PLACES]"
  const CONNECTIONS_HEADER: string := "[CONNECTIONS]"

  /** Both lists start empty and no section is open. */
  const Initial: LoadState := LoadState(Preamble, [], [])

  predicate StartsWith(text: string, prefix: string)
  {
    |prefix| <= |text| && text[..|prefix|] == prefix
  }

  /** Empty lines and comment lines. */
  predicate Blank(text: string)
  {
    |text| == 0 || text[0] == '#'
  }

  /** A header line is not blank, and no line starts with both headers. */
  lemma HeadersDiffer(text: string)
    ensures StartsWith(text, PLACES_HEADER) ==> !Blank(text) && !StartsWith(text, CONNECTIONS_HEADER)
    ensures StartsWith(text, CONNECTIONS_HEADER) ==> !Blank(text)
  {
    if StartsWith(text, PLACES_HEADER) {
      assert text[0] == PLACES_HEADER[0] && text[1] == PLACES_HEADER[1];
    }
    if StartsWith(text, CONNECTIONS_HEADER) {
      assert text[0] == CONNECTIONS_HEADER[0] && text[1] == CONNECTIONS_HEADER[1];
    }
  }

  datatype Kind = Skip | PlacesHeader | ConnectionsHeader | Record

  /** How a line is treated, tested in the order the loader tests it. */
  function Classify(text: string): (k: Kind)
    ensures k == Skip <==> Blank(text)
    ensures StartsWith(text, PLACES_HEADER) ==> k == PlacesHeader
    ensures StartsWith(text, CONNECTIONS_HEADER) ==> k == ConnectionsHeader
    ensures k == Record <==>
      !Blank(text) && !StartsWith(text, PLACES_HEADER) && !StartsWith(text, CONNECTIONS_HEADER)
  {
    HeadersDiffer(text);
    if Blank(text) then Skip
    else if StartsWith(text, PLACES_HEADER) then PlacesHeader
    else if StartsWith(text, CONNECTIONS_HEADER) then ConnectionsHeader
    else Record
  }

  /** The flags as a mode. */
  function ModeOf(readingPlaces: bool, readingConnections: bool): Mode
  {
    if readingPlaces then ReadingPlaces
    else if readingConnections then ReadingConnections
    else Preamble
  }

  /** The ids of a connection record name two places already read. */
  predicate KnownIds(c: ConnFields, count: int)
  {
    c.u >= 0 && c.v >= 0 && c.u < count && c.v < count
  }

  /** One line of the loop. Lists only grow, by at most one record, and a
      state with sequential ids and in-range connections keeps both. */
  function Step(st: LoadState, line: Line): (r: LoadState)
    ensures st.places <= r.places && st.conns <= r.conns
    ensures |r.places| + |r.conns| <= |st.places| + |st.conns| + 1
    ensures Loaded(st.places, st.conns) ==> Loaded(r.places, r.conns)
    ensures Classify(line.text) != Record ==> r.places == st.places && r.conns == st.conns
    ensures st.mode == Preamble && Classify(line.text) == Record ==> r == st
  {
    match Classify(line.text)
    case Skip => st
    case PlacesHeader => st.(mode := ReadingPlaces)
    case ConnectionsHeader => st.(mode := ReadingConnections)
    case Record =>
      match st.mode
      case Preamble => st
      case ReadingPlaces =>
        (match line.asPlace
         case Some(f) =>
           st.(places := st.places + [Place(|st.places|, f.name, f.balance, f.priority, f.soil)])
         case None => st)
      case ReadingConnections =>
        (match line.asConn
         case Some(c) =>
           if KnownIds(c, |st.places|)
           then st.(conns := st.conns + [Connection(c.u, c.v, c.capacity, c.cost)])
           else st
         case None => st)
  }

  /** The state after reading `lines` from `st`, first line first. */
  function RunFrom(st: LoadState, lines: seq<Line>): (r: LoadState)
    ensures st.places <= r.places && st.conns <= r.conns
    ensures Loaded(st.places, st.conns) ==> Loaded(r.places, r.conns)
    decreases |lines|
  {
    if |lines| == 0 then st else RunFrom(Step(st, lines[0]), lines[1..])
  }

  /** The lists a whole file yields: ids are list positions and every
      connection names two places. */
  function Load(lines: seq<Line>): (r: LoadState)
    ensures Loaded(r.places, r.conns)
  {
    RunFrom(Initial, lines)
  }

  /** Reading `a` then `b` is reading `a + b`. */
  lemma {:induction false} RunFromAppend(st: LoadState, a: seq<Line>, b: seq<Line>)
    ensures RunFrom(st, a + b) == RunFrom(RunFrom(st, a), b)
    decreases |a|
  {
    if |a| > 0 {
      assert (a + b)[0] == a[0];
      assert (a + b)[1..] == a[1..] + b;
      RunFromAppend(Step(st, a[0]), a[1..], b);
    } else {
      assert a + b == b;
    }
  }

  /** Reading more lines never removes a record already read. */
  lemma LoadGrows(a: seq<Line>, b: seq<Line>)
    ensures Load(a).places <= Load(a + b).places
    ensures Load(a).conns <= Load(a + b).conns
  {
    RunFromAppend(Initial, a, b);
  }

  predicate NoHeader(lines: seq<Line>)
  {
    forall k | 0 <= k < |lines| ::
      Classify(lines[k].text) != PlacesHeader && Classify(lines[k].text) != ConnectionsHeader
  }

  /** Before the first section header nothing changes the state. */
  lemma {:induction false} PreambleKeeps(st: LoadState, lines: seq<Line>)
    requires st.mode == Preamble && NoHeader(lines)
    ensures RunFrom(st, lines) == st
    decreases |lines|
  {
    if |lines| > 0 {
      assert Classify(lines[0].text) != PlacesHeader;
      assert Classify(lines[0].text) != ConnectionsHeader;
      assert NoHeader(lines[1..]) by {
        forall k | 0 <= k < |lines[1..]|
          ensures Classify(lines[1..][k].text) != PlacesHeader
          ensures Classify(lines[1..][k].text) != ConnectionsHeader
        {
          assert lines[1..][k] == lines[k + 1];
        }
      }
      PreambleKeeps(Step(st, lines[0]), lines[1..]);
    }
  }

  /** Lines before any section header are ignored. */
  lemma PreambleIgnored(preamble: seq<Line>, rest: seq<Line>)
    requires NoHeader(preamble)
    ensures Load(preamble + rest) == Load(rest)
  {
    RunFromAppend(Initial, preamble, rest);
    PreambleKeeps(Initial, preamble);
  }

  /** The lines that are neither empty nor comments, in order. */
  function Meaningful(lines: seq<Line>): (r: seq<Line>)
    ensures |r| <= |lines|
    ensures forall k | 0 <= k < |r| :: !Blank(r[k].text)
  {
    if |lines| == 0 then []
    else if Blank(lines[0].text) then Meaningful(lines[1..])
    else [lines[0]] + Meaningful(lines[1..])
  }

  /** Empty and comment lines can be dropped anywhere without effect. */
  lemma {:induction false} BlankLinesIrrelevant(st: LoadState, lines: seq<Line>)
    ensures RunFrom(st, Meaningful(lines)) == RunFrom(st, lines)
    decreases |lines|
  {
    if |lines| > 0 {
      BlankLinesIrrelevant(Step(st, lines[0]), lines[1..]);
      if !Blank(lines[0].text) {
        var m := [lines[0]] + Meaningful(lines[1..]);
        assert m[0] == lines[0] && m[1..] == Meaningful(lines[1..]);
      }
    }
  }

  /** A connection record read in the connections section is kept exactly
      when both ids name places already read: a connection to a place
      defined further down the file is dropped. */
  lemma ConnectionKeptIff(st: LoadState, line: Line, c: ConnFields)
    requires st.mode == ReadingConnections && Classify(line.text) == Record
    requires line.asConn == Some(c)
    ensures |Step(st, line).conns| == |st.conns| + 1 <==> KnownIds(c, |st.places|)
    ensures KnownIds(c, |st.places|) ==>
      Step(st, line).conns[|st.conns|] == Connection(c.u, c.v, c.capacity, c.cost)
  {
  }

  /** The loader. `file` is None when the file cannot be opened; then the
      caller's lists are left as they were. Otherwise they are replaced by
      what the lines yield, and the result is true even for an empty file. */
  method LoadData(file: Option<seq<Line>>, places0: seq<Place>, conns0: seq<Connection>)
    returns (ok: bool, places: seq<Place>, conns: seq<Connection>)
    ensures ok <==> file.Some?
    ensures file.None? ==> places == places0 && conns == conns0
    ensures file.Some? ==> places == Load(file.value).places && conns == Load(file.value).conns
    ensures file.Some? ==> Loaded(places, conns)
  {
    if file.None? {
      return false, places0, conns0;
    }
    var lines := file.value;
    ok, places, conns := true, [], [];
    var currentId := 0;
    var readingPlaces := false;
    var readingConnections := false;
    var i := 0;
    while i < |lines|
      invariant 0 <= i <= |lines|
      invariant !(readingPlaces && readingConnections)
      invariant currentId == |places|
      invariant Load(lines) == RunFrom(LoadState(ModeOf(readingPlaces, readingConnections), places, conns), lines[i..])
    {
      ghost var before := LoadState(ModeOf(readingPlaces, readingConnections), places, conns);
      assert lines[i..][1..] == lines[i + 1..];
      var line := lines[i];
      var text := line.text;
      if |text| == 0 || text[0] == '#' {
        // skipped in every mode
      } else if StartsWith(text, PLACES_HEADER) {
        readingPlaces, readingConnections := true, false;
      } else if StartsWith(text, CONNECTIONS_HEADER) {
        readingPlaces, readingConnections := false, true;
      } else if readingPlaces {
        if line.asPlace.Some? {
          var f := line.asPlace.value;
          places := places + [Place(currentId, f.name, f.balance, f.priority, f.soil)];
          currentId := currentId + 1;
        }
      } else if readingConnections {
        if line.asConn.Some? {
          var c := line.asConn.value;
          if c.u >= 0 && c.v >= 0 && c.u < |places| && c.v < |places| {
            conns := conns + [Connection(c.u, c.v, c.capacity, c.cost)];
          }
        }
      }
      assert LoadState(ModeOf(readingPlaces, readingConnections), places, conns) == Step(before, line);
      i := i + 1;
    }
    assert lines[i..] == [];
  }

  /** A small file in four parts: a comment and a stray line before any
      header; a connection naming places not yet read; a malformed place
      line and two places; a pipe, a self-loop and an out-of-range id. */
  function ExamplePreamble(): seq<Line>
  {
    [ Line("# farm", None, None),
      Line("stray 1 2 3", Some(PlaceFields("stray", 1, 2, "3")), None) ]
  }

  function ExampleEarly(): seq<Line>
  {
    [ Line("[CONNECTIONS]", None, None),
      Line("0 1 5 1", Some(PlaceFields("0", 1, 5, "1")), Some(ConnFields(0, 1, 5, 1))) ]
  }

  function ExamplePlaceLines(): seq<Line>
  {
    [ Line("[PLACES]", None, None),
      Line("A x 1 loam", None, None),
      Line("A 5 1 loam", Some(PlaceFields("A", 5, 1, "loam")), None),
      Line("B -5 2 clay", Some(PlaceFields("B", -5, 2, "clay")), None) ]
  }

  function ExampleConnLines(): seq<Line>
  {
    [ Line("[CONNECTIONS]", None, None),
      Line("0 1 5 1", Some(PlaceFields("0", 1, 5, "1")), Some(ConnFields(0, 1, 5, 1))),
      Line("1 1 3 2", Some(PlaceFields("1", 1, 3, "2")), Some(ConnFields(1, 1, 3, 2))),
      Line("0 2 1 1", Some(PlaceFields("0", 2, 1, "1")), Some(ConnFields(0, 2, 1, 1))) ]
  }

  function ExampleFile(): seq<Line>
  {
    ExamplePreamble() + ExampleEarly() + ExamplePlaceLines() + ExampleConnLines()
  }

  function FilePlaces(): seq<Place>
  {
    [Place(0, "A", 5, 1, "loam"), Place(1, "B", -5, 2, "clay")]
  }

  function FileConns(): seq<Connection>
  {
    [Connection(0, 1, 5, 1), Connection(1, 1, 3, 2)]
  }

  /** A connection read before any place is dropped. */
  lemma ExampleEarlyDropped()
    ensures RunFrom(Initial, ExampleEarly()) == LoadState(ReadingConnections, [], [])
  {
  }

  /** The malformed place line takes no id. */
  lemma ExamplePlacesRead(st: LoadState)
    requires st == LoadState(ReadingConnections, [], [])
    ensures RunFrom(st, ExamplePlaceLines()) == LoadState(ReadingPlaces, FilePlaces(), [])
  {
  }

  /** The pipe and the self-loop are kept, the id 2 is not. */
  lemma ExampleConnsRead(st: LoadState)
    requires st == LoadState(ReadingPlaces, FilePlaces(), [])
    ensures RunFrom(st, ExampleConnLines()) == LoadState(ReadingConnections, FilePlaces(), FileConns())
  {
  }

  /** On the example file the stray line, the early connection, the
      malformed place and the out-of-range id are dropped; places are
      numbered 0 and 1; the self-loop on B is kept, so the loaded
      connections are not free of self-loops (and
      Graph.SelfLoopBreaksTwinLink applies to them). */
  lemma ExampleLoad()
    ensures Load(ExampleFile()).places == FilePlaces()
    ensures Load(ExampleFile()).conns == FileConns()
    ensures !NoSelfLoops(Load(ExampleFile()).conns)
  {
    var p, e, pl, cl := ExamplePreamble(), ExampleEarly(), ExamplePlaceLines(), ExampleConnLines();
    assert NoHeader(p);
    assert ExampleFile() == p + (e + pl + cl);
    PreambleIgnored(p, e + pl + cl);
    assert e + pl + cl == e + (pl + cl);
    RunFromAppend(Initial, e, pl + cl);
    ExampleEarlyDropped();
    RunFromAppend(LoadState(ReadingConnections, [], []), pl, cl);
    ExamplePlacesRead(LoadState(ReadingConnections, [], []));
    ExampleConnsRead(LoadState(ReadingPlaces, FilePlaces(), []));
    assert FileConns()[1].from == FileConns()[1].to;
  }
}
