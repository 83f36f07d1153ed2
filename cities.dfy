/**
 * `parse_cities`: the `CITIES` setting `name:lat,lon;name:lat,lon` becomes
 * an insertion-ordered dictionary from city name to coordinates. An unset
 * or empty setting gives the built-in Perth target.
 */
module Cities {
  import opened Wrappers
  import opened Text
  import opened Sequences
  import opened Payload

  /** One configured city: the fetch target of one request. */
  datatype Target = Target(name: string, lat: Float, lon: Float)

  /**
   * The ValueError `parse_cities` raises. The model records which segment
   * raised it; the exception's own message does not name the segment.
   */
  datatype ConfigError = ConfigError(segment: string)

  const Perth := Target("Perth", Finite(-31.95), Finite(115.86))

  /** The dictionary's keys, in order. */
  function Names(m: seq<Target>): seq<string> {
    seq(|m|, i requires 0 <= i < |m| => m[i].name)
  }

  /**
   * Storing a target under its name in a Python dictionary, which is a
   * sequence of entries with distinct names: an existing name keeps its
   * position and takes the new coordinates, a new name goes to the end.
   */
  function Put(m: seq<Target>, t: Target): (r: seq<Target>)
    requires NoDups(Names(m))
    ensures NoDups(Names(r))
    ensures Names(r) == if t.name in Names(m) then Names(m) else Names(m) + [t.name]
    ensures forall i | 0 <= i < |m| :: r[i] == if m[i].name == t.name then t else m[i]
    ensures t in r
  {
    var ns := Names(m);
    assert forall j | 0 <= j < |m| :: ns[j] == m[j].name;
    if t.name in ns then
      var i := FirstIndex(ns, t.name);
      var r := m[i := t];
      assert Names(r) == ns;
      r
    else
      var r := m + [t];
      assert Names(r) == ns + [t.name];
      r
  }

  /** A segment that is empty once stripped of whitespace is skipped. */
  predicate Blank(item: string) {
    Strip(item) == []
  }

  /** The dictionary key a segment would set: its part before `:`, stripped. */
  function NameOf(item: string): string {
    Strip(Split(item, ':')[0])
  }

  /** What one turn of the loop makes of one segment. */
  datatype Reading = Skip | Entry(target: Target) | Malformed(segment: string)

  /**
   * One segment: a blank one is skipped; otherwise `name, coords =
   * item.split(":")` needs exactly one colon, and `lat, lon = map(float,
   * coords.split(","))` exactly one comma with both sides read by
   * `float()`. Anything else raises.
   */
  function Read(item: string, ps: Parsers): (r: Reading)
    ensures r.Skip? <==> Blank(item)
    ensures r.Entry? ==> r.target.name == NameOf(item)
    ensures r.Malformed? ==> r.segment == item
  {
    if Blank(item) then Skip
    else
      var parts := Split(item, ':');
      if |parts| != 2 then Malformed(item)
      else
        var coords := Split(parts[1], ',');
        if |coords| != 2 then Malformed(item)
        else
          match (ps.toFloat(coords[0]), ps.toFloat(coords[1]))
          case (Some(lat), Some(lon)) => Entry(Target(Strip(parts[0]), lat, lon))
          case _ => Malformed(item)
  }

  /** What the loop makes of each segment. */
  function Readings(items: seq<string>, ps: Parsers): seq<Reading> {
    seq(|items|, i requires 0 <= i < |items| => Read(items[i], ps))
  }

  /** One turn of the loop: skip, insert into the dictionary, or raise. */
  function Step(acc: Result<seq<Target>, ConfigError>, rd: Reading): (r: Result<seq<Target>, ConfigError>)
    requires acc.Ok? ==> NoDups(Names(acc.value))
    ensures r.Ok? ==> NoDups(Names(r.value))
  {
    match acc
    case Err(e) => Err(e)
    case Ok(m) =>
      match rd
      case Skip => Ok(m)
      case Entry(t) => Ok(Put(m, t))
      case Malformed(item) => Err(ConfigError(item))
  }

  /** The loop of `parse_cities` over the segments read so far. */
  function Build(rs: seq<Reading>): (r: Result<seq<Target>, ConfigError>)
    ensures r.Ok? ==> NoDups(Names(r.value))
  {
    if rs == [] then Ok([])
    else Step(Build(rs[..|rs| - 1]), rs[|rs| - 1])
  }

  /** What `parse_cities(env)` returns or raises. */
  function CitiesOf(env: Option<string>, ps: Parsers): Result<seq<Target>, ConfigError> {
    if env.None? || env.value == [] then Ok([Perth])
    else Build(Readings(Split(env.value, ';'), ps))
  }

  /**
   * The body of the loop of `parse_cities` for one segment, up to the
   * dictionary update. It is `Read` written as statements, kept apart from
   * `ParseCities` only so that each of the two proofs stays small.
   */
  method ReadSegment(item: string, ps: Parsers) returns (rd: Reading)
    ensures rd == Read(item, ps)
  {
    if Blank(item) {
      return Skip;
    }
    var parts := Split(item, ':');
    if |parts| != 2 {
      return Malformed(item);
    }
    var coords := Split(parts[1], ',');
    if |coords| != 2 {
      return Malformed(item);
    }
    var lat := ps.toFloat(coords[0]);
    var lon := ps.toFloat(coords[1]);
    if lat.None? || lon.None? {
      return Malformed(item);
    }
    rd := Entry(Target(Strip(parts[0]), lat.value, lon.value));
  }

  /** `parse_cities`, with its loop inserting into the dictionary `out`. */
  method ParseCities(env: Option<string>, ps: Parsers) returns (r: Result<seq<Target>, ConfigError>)
    ensures r == CitiesOf(env, ps)
  {
    if env.None? || env.value == [] {
      return Ok([Perth]);
    }
    var items := Split(env.value, ';');
    ghost var rs := Readings(items, ps);
    var out: seq<Target> := [];
    var i := 0;
    while i < |items|
      invariant 0 <= i <= |items|
      invariant Build(rs[..i]) == Ok(out)
    {
      assert rs[..i + 1][..i] == rs[..i];
      var rd := ReadSegment(items[i], ps);
      assert Build(rs[..i + 1]) == Step(Ok(out), rd);
      match rd {
        case Skip =>
        case Entry(t) =>
          out := Put(out, t);
        case Malformed(item) =>
          ErrorPersists(rs, i + 1);
          return Err(ConfigError(item));
      }
      i := i + 1;
    }
    assert rs[..i] == rs;
    r := Ok(out);
  }

  /** Once a prefix of the segments has raised, the whole call raises the same error. */
  lemma {:induction false} ErrorPersists(rs: seq<Reading>, k: nat)
    requires k <= |rs|
    requires Build(rs[..k]).Err?
    ensures Build(rs) == Build(rs[..k])
    decreases |rs| - k
  {
    if k < |rs| {
      var init := rs[..|rs| - 1];
      assert init[..k] == rs[..k];
      ErrorPersists(init, k);
    } else {
      assert rs[..k] == rs;
    }
  }

  /** Segments that are all skipped give an empty dictionary. */
  lemma {:induction false} AllSkippedIsEmpty(rs: seq<Reading>)
    requires forall k | 0 <= k < |rs| :: rs[k].Skip?
    ensures Build(rs) == Ok([])
  {
    if rs != [] {
      AllSkippedIsEmpty(rs[..|rs| - 1]);
    }
  }

  /**
   * The fallback applies only to an unset or empty setting; a setting made
   * of blank segments alone (say `" ; "`) gives no cities at all.
   */
  lemma BlankSettingHasNoCities(env: string, ps: Parsers)
    requires env != []
    requires forall k | 0 <= k < |Split(env, ';')| :: Blank(Split(env, ';')[k])
    ensures CitiesOf(Some(env), ps) == Ok([])
    ensures CitiesOf(None, ps) == CitiesOf(Some([]), ps) == Ok([Perth])
  {
    AllSkippedIsEmpty(Readings(Split(env, ';'), ps));
  }

  /** The position of the first malformed segment, or the number of segments when there is none. */
  function FirstMalformed(rs: seq<Reading>): (k: nat)
    ensures k <= |rs|
    ensures forall j | 0 <= j < k :: !rs[j].Malformed?
    ensures k < |rs| ==> rs[k].Malformed?
  {
    if rs == [] then 0
    else if rs[0].Malformed? then 0
    else 1 + FirstMalformed(rs[1..])
  }

  /** Appending a segment leaves the first malformed segment where it was, if there was one. */
  lemma FirstMalformedSnoc(rs: seq<Reading>)
    requires rs != []
    ensures var init := rs[..|rs| - 1];
      FirstMalformed(rs) == if FirstMalformed(init) < |init| || rs[|rs| - 1].Malformed?
                            then FirstMalformed(init) else |rs|
  {
    var init := rs[..|rs| - 1];
    assert forall j | 0 <= j < |init| :: init[j] == rs[j];
  }

  /**
   * `parse_cities` raises exactly when some non-blank segment is malformed,
   * and the error names the first such segment; no partial dictionary is
   * returned.
   */
  lemma {:induction false} ParseErrorIff(rs: seq<Reading>)
    ensures Build(rs).Err? <==> FirstMalformed(rs) < |rs|
    ensures FirstMalformed(rs) < |rs| ==>
      Build(rs) == Err(ConfigError(rs[FirstMalformed(rs)].segment))
  {
    if rs != [] {
      var init := rs[..|rs| - 1];
      ParseErrorIff(init);
      FirstMalformedSnoc(rs);
      if FirstMalformed(init) < |init| {
        assert rs[FirstMalformed(init)] == init[FirstMalformed(init)];
      }
    }
  }

  /** The names the well-formed segments set, in order and with repeats. */
  function EntryNames(rs: seq<Reading>): seq<string> {
    if rs == [] then []
    else
      var init := EntryNames(rs[..|rs| - 1]);
      match rs[|rs| - 1]
      case Entry(t) => init + [t.name]
      case _ => init
  }

  /**
   * On success the dictionary holds one entry per distinct stripped name,
   * in the order in which each name first appeared.
   */
  lemma {:induction false} ParsedNames(rs: seq<Reading>)
    requires Build(rs).Ok?
    ensures Names(Build(rs).value) == Distinct(EntryNames(rs))
  {
    if rs != [] {
      var init := rs[..|rs| - 1];
      ParsedNames(init);
      if rs[|rs| - 1].Entry? {
        DistinctSnoc(EntryNames(init), rs[|rs| - 1].target.name);
      }
    }
  }

  /** The target the last well-formed segment naming `name` reads as, if any. */
  function LastSet(rs: seq<Reading>, name: string): Option<Target> {
    if rs == [] then None
    else if rs[|rs| - 1].Entry? && rs[|rs| - 1].target.name == name then Some(rs[|rs| - 1].target)
    else LastSet(rs[..|rs| - 1], name)
  }

  /**
   * On success every entry holds the coordinates of the last segment with
   * its name: a later duplicate overwrites the value but not the position.
   */
  lemma {:induction false} ParsedValues(rs: seq<Reading>)
    requires Build(rs).Ok?
    ensures forall t | t in Build(rs).value :: LastSet(rs, t.name) == Some(t)
  {
    if rs != [] {
      var init := rs[..|rs| - 1];
      ParsedValues(init);
      var m := Build(init).value;
      if rs[|rs| - 1].Entry? {
        var t := rs[|rs| - 1].target;
        var r := Put(m, t);
        forall u | u in r ensures LastSet(rs, u.name) == Some(u) {
          if u.name != t.name {
            var k :| 0 <= k < |r| && r[k] == u;
            assert k < |m| && m[k] == u;
          }
        }
      }
    }
  }

  /** A non-blank segment with one colon and one comma after it whose two coordinates parse is an entry. */
  lemma ReadEntry(item: string, name: string, lat: string, lon: string, ps: Parsers)
    requires !Blank(item)
    requires Split(item, ':') == [name, lat + "," + lon] && Split(lat + "," + lon, ',') == [lat, lon]
    requires ps.toFloat(lat).Some? && ps.toFloat(lon).Some?
    ensures Read(item, ps) == Entry(Target(Strip(name), ps.toFloat(lat).value, ps.toFloat(lon).value))
  {
  }

  /** How `name:lat,lon` splits when neither separator occurs elsewhere. */
  lemma WellFormedSplits(name: string, lat: string, lon: string)
    requires ':' !in name && ':' !in lat && ':' !in lon && ',' !in lat && ',' !in lon
    ensures Split(name + ":" + (lat + "," + lon), ':') == [name, lat + "," + lon]
    ensures Split(lat + "," + lon, ',') == [lat, lon]
  {
    var coords := lat + "," + lon;
    assert ':' !in coords;
    SplitAt(name, coords, ':');
    assert Split(coords, ':') == [coords];
    SplitAt(lat, lon, ',');
    assert Split(lon, ',') == [lon];
  }

  /**
   * A well-formed segment `name:lat,lon` is read as the target with the
   * stripped name and the two parsed coordinates.
   */
  lemma ReadWellFormed(name: string, lat: string, lon: string, ps: Parsers)
    requires ':' !in name && ':' !in lat && ':' !in lon && ',' !in lat && ',' !in lon
    requires ps.toFloat(lat).Some? && ps.toFloat(lon).Some?
    requires !Blank(name + ":" + (lat + "," + lon))
    ensures Read(name + ":" + (lat + "," + lon), ps)
      == Entry(Target(Strip(name), ps.toFloat(lat).value, ps.toFloat(lon).value))
  {
    WellFormedSplits(name, lat, lon);
    ReadEntry(name + ":" + (lat + "," + lon), name, lat, lon, ps);
  }

  /**
   * The converse of `ReadWellFormed`: a segment read as an entry is
   * `name:lat,lon` with exactly one colon, exactly one comma after it and
   * two coordinates `float()` reads. So every other non-blank segment
   * (a second colon, no comma, an unreadable number) raises.
   */
  lemma ReadEntryShape(item: string, ps: Parsers) returns (name: string, lat: string, lon: string)
    requires Read(item, ps).Entry?
    ensures ':' !in name && ':' !in lat && ':' !in lon && ',' !in lat && ',' !in lon
    ensures item == name + ":" + (lat + "," + lon)
    ensures ps.toFloat(lat).Some? && ps.toFloat(lon).Some?
    ensures Read(item, ps).target == Target(Strip(name), ps.toFloat(lat).value, ps.toFloat(lon).value)
  {
    var parts := Split(item, ':');
    JoinSplit(item, ':');
    name := parts[0];
    var coords := Split(parts[1], ',');
    JoinSplit(parts[1], ',');
    lat, lon := coords[0], coords[1];
    assert parts[1..] == [parts[1]];
    assert coords[1..] == [lon];
    assert item == name + ":" + parts[1];
    assert parts[1] == lat + "," + lon;
  }
}
