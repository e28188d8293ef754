/**
 * jackal/scripts/named_pipes.py: the query a pipe section asks for, the search class a
 * section's type names, and what a pipe worker writes in each cycle (every formatted
 * record, or in unique mode every distinct formatted record once, in first-occurrence
 * order, the seen-set starting empty in every cycle).
 */
module NamedPipes {
  import opened Wrappers
  import opened Lists
  import opened Text
  import opened Values
  import opened Documents
  import Core

  /** A section of the pipes configuration file: option name to its (string) value. */
  type Section = map<string, string>

  /** A keyword argument handed to `search(**query)`. */
  datatype Arg = Str(s: string) | Words(ws: seq<string>) | Flag(b: bool)

  /** The section options a query is built from. */
  const QueryOptions: set<string> := {"ports", "up", "search", "tags", "groups"}

  /** Python truthiness of a keyword argument. */
  predicate ArgTruthy(a: Arg) {
    match a
    case Str(s) => s != ""
    case Words(ws) => ws != []
    case Flag(b) => b
  }

  /** `bool(section[key])` for a present option, False for a missing one. */
  predicate OptionSet(section: Section, key: string) {
    key in section && section[key] != ""
  }

  /** `section.get(key, '')`. */
  function OptionOr(section: Section, key: string): string {
    if key in section then section[key] else ""
  }

  // ---------------------------------------------------------------- create_query

  /**
   * `create_query` as written: every query option present in the section becomes a
   * keyword argument, `up` as its truth value and the others wrapped in a one-element list.
   */
  function CreateQuery(section: Section): (q: map<string, Arg>)
    ensures q.Keys == section.Keys * QueryOptions
    ensures "up" in q ==> q["up"] == Flag(OptionSet(section, "up"))
    ensures forall k :: k in q && k != "up" ==> q[k] == Words([section[k]])
  {
    var q: map<string, Arg> := map[];
    var q := if "ports" in section then q["ports" := Words([section["ports"]])] else q;
    var q := if "up" in section then q["up" := Flag(section["up"] != "")] else q;
    var q := if "search" in section then q["search" := Words([section["search"]])] else q;
    var q := if "tags" in section then q["tags" := Words([section["tags"]])] else q;
    if "groups" in section then q["groups" := Words([section["groups"]])] else q
  }

  /** A section without any query option asks for nothing. */
  lemma CreateQueryEmpty(section: Section)
    requires section.Keys * QueryOptions == {}
    ensures CreateQuery(section) == map[]
  {
    assert CreateQuery(section).Keys == {};
  }

  /**
   * `create_query` as evidently intended: the same options, each passed as the string
   * `create_search` splits on commas.
   */
  function QueryArgs(section: Section): (q: map<string, Arg>)
    ensures q.Keys == section.Keys * QueryOptions
    ensures "up" in q ==> q["up"] == Flag(OptionSet(section, "up"))
    ensures forall k :: k in q && k != "up" ==> q[k] == Str(section[k])
  {
    var q: map<string, Arg> := map[];
    var q := if "ports" in section then q["ports" := Str(section["ports"])] else q;
    var q := if "up" in section then q["up" := Flag(section["up"] != "")] else q;
    var q := if "search" in section then q["search" := Str(section["search"])] else q;
    var q := if "tags" in section then q["tags" := Str(section["tags"])] else q;
    if "groups" in section then q["groups" := Str(section["groups"])] else q
  }

  // ---------------------------------------------------------------- the arguments create_search reads

  /**
   * A comma-separated argument as `create_search` reads it: a false value is skipped
   * (read as ''), a string is split, and anything else fails, having no `split`.
   */
  function SplitArg(q: map<string, Arg>, key: string): (r: Result<string, string>)
    ensures key !in q ==> r == Ok("")
    ensures key in q && q[key].Str? ==> r == Ok(q[key].s)
    ensures r.Err? <==> key in q && ArgTruthy(q[key]) && !q[key].Str?
  {
    if key !in q || !ArgTruthy(q[key]) then Ok("")
    else match q[key]
      case Str(s) => Ok(s)
      case Words(_) => Err("AttributeError: 'list' object has no attribute 'split'")
      case Flag(_) => Err("AttributeError: 'bool' object has no attribute 'split'")
  }

  /**
   * The search filter arguments `search(**q)` hands to the `create_search` of a Range,
   * Host or Service search: a Range search reads only the tags; a Host or Service search
   * reads tags, up, ports and search in that order, and the range when it is a string.
   * Other keywords (such as groups) are ignored.
   */
  function SearchQuery(kind: Kind, q: map<string, Arg>): (r: Result<Core.Query, string>)
    requires kind.Mapped()
  {
    var tags :- SplitArg(q, "tags");
    if kind == Range then Ok(Core.Query(tags, false, "", "", ""))
    else
      var up := "up" in q && ArgTruthy(q["up"]);
      var ports :- SplitArg(q, "ports");
      var search :- SplitArg(q, "search");
      var range := if "range" in q && q["range"].Str? then q["range"].s else "";
      Ok(Core.Query(tags, up, ports, search, range))
  }

  /**
   * The search a section configures, as intended: its tags, and for hosts and services
   * its up flag, ports and search terms ('' and false where the option is missing).
   */
  function SectionQuery(kind: Kind, section: Section): Core.Query
  {
    if kind == Range then Core.Query(OptionOr(section, "tags"), false, "", "", "")
    else Core.Query(OptionOr(section, "tags"), OptionSet(section, "up"), OptionOr(section, "ports"), OptionOr(section, "search"), "")
  }

  /**
   * As written, the search of a pipe fails exactly when the section sets tags, or, for a
   * Host or Service pipe, ports or search terms: each is handed over as a list, and
   * `create_search` calls `split` on it.
   */
  lemma CreateQuerySearchFails(kind: Kind, section: Section)
    requires kind.Mapped()
    ensures SearchQuery(kind, CreateQuery(section)).Err? <==>
      "tags" in section || (kind != Range && ("ports" in section || "search" in section))
  {
    var q := CreateQuery(section);
    assert "tags" in section ==> q["tags"] == Words([section["tags"]]);
    assert "ports" in section ==> q["ports"] == Words([section["ports"]]);
    assert "search" in section ==> q["search"] == Words([section["search"]]);
  }

  /** A section with tags shows it: its Range pipe's search never gets built. */
  lemma TaggedRangePipeFails()
    ensures SearchQuery(Range, CreateQuery(map["type" := "range", "tags" := "x"])).Err?
  {
    CreateQuerySearchFails(Range, map["type" := "range", "tags" := "x"]);
  }

  /** With the options passed as strings, the search is exactly the one the section configures. */
  lemma QueryArgsSearch(kind: Kind, section: Section)
    requires kind.Mapped()
    ensures SearchQuery(kind, QueryArgs(section)) == Ok(SectionQuery(kind, section))
  {
    var q := QueryArgs(section);
    assert "range" !in q;
    assert "up" in q ==> q["up"] == Flag(OptionSet(section, "up"));
  }

  // ---------------------------------------------------------------- create_pipe_workers

  /** `type_map`: the search class a section's type names. */
  function TypeMap(name: string): (r: Option<Kind>)
    ensures r.Some? <==> name in {"service", "host", "range", "user"}
    ensures r.Some? ==> (r.value == Service <==> name == "service") && (r.value == Host <==> name == "host") &&
                        (r.value == Range <==> name == "range") && (r.value == User <==> name == "user")
  {
    match name
    case "service" => Some(Service)
    case "host" => Some(Host)
    case "range" => Some(Range)
    case "user" => Some(User)
    case _ => None
  }

  /** `os.path.join(directory, name)` on POSIX paths. */
  function PathJoin(directory: string, name: string): (r: string)
    ensures StartsWith(name, "/") ==> r == name
    ensures !StartsWith(name, "/") ==> StartsWith(r, directory) && EndsWith(r, name)
  {
    if StartsWith(name, "/") then name
    else if directory == "" || EndsWith(directory, "/") then directory + name
    else directory + "/" + name
  }

  /** What one worker is started with. */
  datatype Worker = Worker(name: string, path: string, kind: Kind, query: map<string, Arg>, format: string, unique: bool)

  /**
   * The worker of one section: its query is `create_query`'s, its type must name a
   * search class and its format must be given (a KeyError otherwise); unique is
   * `bool(section.get('unique', 0))`.
   */
  function WorkerOf(directory: string, name: string, section: Section): Result<Worker, string>
  {
    if "type" !in section then Err("KeyError: 'type'")
    else if TypeMap(section["type"]).None? then Err("KeyError: " + section["type"])
    else if "format" !in section then Err("KeyError: 'format'")
    else Ok(Worker(name, PathJoin(directory, name), TypeMap(section["type"]).value, CreateQuery(section),
                   section["format"], OptionSet(section, "unique")))
  }

  /**
   * A section gives a worker exactly when its type is one of service, host, range and
   * user and it has a format; the worker is named after the section, its pipe lies in
   * the directory, and its query, format and unique flag are the section's.
   */
  lemma WorkerOfSection(directory: string, name: string, section: Section)
    ensures var r := WorkerOf(directory, name, section);
      (r.Ok? <==> "type" in section && section["type"] in {"service", "host", "range", "user"} && "format" in section) &&
      (r.Ok? ==> r.value.kind == TypeMap(section["type"]).value && r.value.query == CreateQuery(section) &&
                 r.value.format == section["format"] && r.value.unique == OptionSet(section, "unique") &&
                 r.value.path == PathJoin(directory, name) && r.value.name == name)
  {
  }

  /**
   * As written, the search of a Range, Host or Service worker fails to build exactly when
   * its section sets tags, or ports or search outside a Range pipe.
   */
  lemma WorkerSearchFails(directory: string, name: string, section: Section)
    requires WorkerOf(directory, name, section).Ok? && WorkerOf(directory, name, section).value.kind.Mapped()
    ensures var w := WorkerOf(directory, name, section).value;
      SearchQuery(w.kind, w.query).Err? <==> "tags" in section || (w.kind != Range && ("ports" in section || "search" in section))
  {
    CreateQuerySearchFails(WorkerOf(directory, name, section).value.kind, section);
  }

  /** The worker of one section with the corrected query. */
  function WorkerOfIntended(directory: string, name: string, section: Section): Result<Worker, string>
  {
    match WorkerOf(directory, name, section)
    case Err(e) => Err(e)
    case Ok(w) => Ok(w.(query := QueryArgs(section)))
  }

  /** With the corrected query, every Range, Host and Service worker searches exactly as its section configures. */
  lemma WorkerOfIntendedSearch(directory: string, name: string, section: Section)
    ensures var r := WorkerOfIntended(directory, name, section);
      r.Ok? == WorkerOf(directory, name, section).Ok? &&
      (r.Ok? && r.value.kind.Mapped() ==> SearchQuery(r.value.kind, r.value.query) == Ok(SectionQuery(r.value.kind, section)))
  {
    var r := WorkerOfIntended(directory, name, section);
    if r.Ok? && r.value.kind.Mapped() {
      QueryArgsSearch(r.value.kind, section);
    }
  }

  /** The values of a sequence of results, in order; the first error fails the whole. */
  function Collect<T>(rs: seq<Result<T, string>>): Result<seq<T>, string>
    decreases |rs|
  {
    if rs == [] then Ok([])
    else
      match Collect(rs[..|rs| - 1])
      case Err(e) => Err(e)
      case Ok(xs) =>
        match rs[|rs| - 1]
        case Err(e) => Err(e)
        case Ok(x) => Ok(xs + [x])
  }

  /** Collecting succeeds exactly when every result is a value, and then gives every value in order. */
  lemma {:induction false} CollectOk<T>(rs: seq<Result<T, string>>)
    ensures var r := Collect(rs);
      (r.Ok? <==> forall i :: 0 <= i < |rs| ==> rs[i].Ok?) &&
      (r.Ok? ==> |r.value| == |rs| && forall i :: 0 <= i < |rs| ==> r.value[i] == rs[i].value)
    decreases |rs|
  {
    if rs != [] {
      var init := rs[..|rs| - 1];
      CollectOk(init);
      assert forall i :: 0 <= i < |init| ==> init[i] == rs[i];
    }
  }

  /** A failed collection carries the error of the first result that is not a value. */
  lemma {:induction false} CollectFirstErr<T>(rs: seq<Result<T, string>>)
    requires Collect(rs).Err?
    ensures exists i :: 0 <= i < |rs| && rs[i] == Err(Collect(rs).error) && forall j :: 0 <= j < i ==> rs[j].Ok?
    decreases |rs|
  {
    var n := |rs| - 1;
    var init := rs[..n];
    assert forall i :: 0 <= i < n ==> init[i] == rs[i];
    if Collect(init).Err? {
      CollectFirstErr(init);
    } else {
      CollectOk(init);
      assert rs[n] == Err(Collect(rs).error);
    }
  }

  /** Once a prefix fails, the whole fails with the same error. */
  lemma {:induction false} CollectErrPrefix<T>(rs: seq<Result<T, string>>, n: nat)
    requires n <= |rs| && Collect(rs[..n]).Err?
    ensures Collect(rs) == Collect(rs[..n])
    decreases |rs| - n
  {
    if n < |rs| {
      assert rs[..n + 1][..n] == rs[..n];
      CollectErrPrefix(rs, n + 1);
    } else {
      assert rs[..n] == rs;
    }
  }

  /** The worker, or the error, of every section in turn. */
  function WorkerResults(directory: string, sections: seq<(string, Section)>): (r: seq<Result<Worker, string>>)
    ensures |r| == |sections|
    ensures forall i :: 0 <= i < |sections| ==> r[i] == WorkerOf(directory, sections[i].0, sections[i].1)
  {
    seq(|sections|, i requires 0 <= i < |sections| => WorkerOf(directory, sections[i].0, sections[i].1))
  }

  /** The workers of a sequence of sections, in order; the first section without a worker fails the whole. */
  function Workers(directory: string, sections: seq<(string, Section)>): Result<seq<Worker>, string>
  {
    Collect(WorkerResults(directory, sections))
  }

  /** There are workers exactly when every section gives one, and then one per section in order. */
  lemma WorkersOk(directory: string, sections: seq<(string, Section)>)
    ensures var r := Workers(directory, sections);
      (r.Ok? <==> forall i :: 0 <= i < |sections| ==> WorkerOf(directory, sections[i].0, sections[i].1).Ok?) &&
      (r.Ok? ==> |r.value| == |sections| &&
                 forall i :: 0 <= i < |sections| ==> r.value[i] == WorkerOf(directory, sections[i].0, sections[i].1).value)
  {
    CollectOk(WorkerResults(directory, sections));
  }

  /** Without workers, the error is that of the first section that gives none. */
  lemma WorkersFirstErr(directory: string, sections: seq<(string, Section)>)
    requires Workers(directory, sections).Err?
    ensures exists i :: (0 <= i < |sections| &&
      WorkerOf(directory, sections[i].0, sections[i].1) == Err(Workers(directory, sections).error) &&
      forall j :: 0 <= j < i ==> WorkerOf(directory, sections[j].0, sections[j].1).Ok?)
  {
    var rs := WorkerResults(directory, sections);
    CollectFirstErr(rs);
    var i :| 0 <= i < |rs| && rs[i] == Err(Collect(rs).error) && forall j :: 0 <= j < i ==> rs[j].Ok?;
    assert WorkerOf(directory, sections[i].0, sections[i].1) == Err(Workers(directory, sections).error);
  }

  /**
   * `create_pipe_workers`: one worker per configured section, in order; the first
   * section that cannot be read fails the whole. No sections gives no workers.
   */
  method CreatePipeWorkers(sections: seq<(string, Section)>, directory: string) returns (r: Result<seq<Worker>, string>)
    ensures r == Workers(directory, sections)
  {
    ghost var rs := WorkerResults(directory, sections);
    var workers: seq<Worker> := [];
    var i := 0;
    while i < |sections|
      invariant 0 <= i <= |sections|
      invariant Collect(rs[..i]) == Ok(workers)
    {
      assert rs[..i + 1][..i] == rs[..i];
      var w := WorkerOf(directory, sections[i].0, sections[i].1);
      assert w == rs[i];
      if w.Err? {
        r := Err(w.error);
        CollectErrPrefix(rs, i + 1);
        return;
      }
      workers := workers + [w.value];
      i := i + 1;
    }
    assert rs[..i] == rs;
    r := Ok(workers);
  }

  // ---------------------------------------------------------------- pipe_worker

  /** The formatted line of every record a search returned, in order. */
  function Formatted(objects: seq<Fields>, format: Fields -> string): (r: seq<string>)
    ensures |r| == |objects|
    ensures forall i :: 0 <= i < |objects| ==> r[i] == format(objects[i])
  {
    seq(|objects|, i requires 0 <= i < |objects| => format(objects[i]))
  }

  /** What writing each line followed by a newline puts into the pipe, write by write. */
  function Lines(xs: seq<string>): (r: seq<string>)
    ensures |r| == |xs|
    ensures forall i :: 0 <= i < |xs| ==> r[i] == xs[i] + "\n"
  {
    seq(|xs|, i requires 0 <= i < |xs| => xs[i] + "\n")
  }

  /**
   * The writes of one cycle: every formatted record, or in unique mode the distinct
   * formatted records in first-occurrence order.
   */
  function CycleWrites(objects: seq<Fields>, format: Fields -> string, unique: bool): seq<string>
  {
    Lines(if unique then Dedup(Formatted(objects, format)) else Formatted(objects, format))
  }

  /**
   * One cycle of `pipe_worker` after a reader opened the pipe: the seen-set starts empty
   * and the records the search returned are formatted and written in turn.
   */
  method Cycle(objects: seq<Fields>, format: Fields -> string, unique: bool) returns (written: seq<string>)
    ensures written == CycleWrites(objects, format, unique)
  {
    ghost var seen: seq<string> := [];
    var uniq: set<string> := {};
    written := [];
    var i := 0;
    while i < |objects|
      invariant 0 <= i <= |objects| && |seen| == i
      invariant forall j :: 0 <= j < i ==> seen[j] == format(objects[j])
      invariant unique ==> forall x :: x in uniq <==> x in seen
      invariant unique ==> written == Lines(Dedup(seen))
      invariant !unique ==> written == Lines(seen)
    {
      var data := format(objects[i]);
      if unique {
        DedupSnoc(seen, data);
        if data !in uniq {
          uniq := uniq + {data};
          LinesSnoc(Dedup(seen), data);
          written := written + [data + "\n"];
        }
      } else {
        LinesSnoc(seen, data);
        written := written + [data + "\n"];
      }
      seen := seen + [data];
      i := i + 1;
    }
    assert seen == Formatted(objects, format);
  }

  /** Deduplicating one more element keeps it exactly when it is new. */
  lemma DedupSnoc(s: seq<string>, x: string)
    ensures Dedup(s + [x]) == if x in s then Dedup(s) else Dedup(s) + [x]
  {
    assert (s + [x])[..|s|] == s;
  }

  /** Writing one more line. */
  lemma LinesSnoc(xs: seq<string>, x: string)
    ensures Lines(xs + [x]) == Lines(xs) + [x + "\n"]
  {
  }

  /**
   * The `while True` loop of `pipe_worker`, over the searches of successive cycles: each
   * cycle writes what `CycleWrites` says of its own records, whatever came before.
   */
  method PipeWorker(searches: seq<seq<Fields>>, format: Fields -> string, unique: bool) returns (cycles: seq<seq<string>>)
    ensures |cycles| == |searches|
    ensures forall c :: 0 <= c < |searches| ==> cycles[c] == CycleWrites(searches[c], format, unique)
  {
    cycles := [];
    var c := 0;
    while c < |searches|
      invariant 0 <= c <= |searches| && |cycles| == c
      invariant forall d :: 0 <= d < c ==> cycles[d] == CycleWrites(searches[d], format, unique)
    {
      var written := Cycle(searches[c], format, unique);
      cycles := cycles + [written];
      c := c + 1;
    }
  }

  /** In unique mode a cycle writes every formatted record's line, and no line twice. */
  lemma UniqueCycleWritesOnce(objects: seq<Fields>, format: Fields -> string)
    ensures NoDups(CycleWrites(objects, format, true))
    ensures forall x :: x + "\n" in CycleWrites(objects, format, true) <==> x in Formatted(objects, format)
  {
    var d := Dedup(Formatted(objects, format));
    var w := CycleWrites(objects, format, true);
    DedupSpec(Formatted(objects, format));
    forall i, j | 0 <= i < j < |w| ensures w[i] != w[j] {
      LinesInjective(d[i], d[j]);
    }
    forall x | x + "\n" in w ensures x in Formatted(objects, format) {
      var i :| 0 <= i < |w| && w[i] == x + "\n";
      LinesInjective(d[i], x);
    }
    forall x | x in Formatted(objects, format) ensures x + "\n" in w {
      var i :| 0 <= i < |d| && d[i] == x;
      assert w[i] == x + "\n";
    }
  }

  /** Outside unique mode, the cycle writes one line per record, in search order. */
  lemma PlainCycleWritesAll(objects: seq<Fields>, format: Fields -> string)
    ensures |CycleWrites(objects, format, false)| == |objects|
    ensures forall i :: 0 <= i < |objects| ==> CycleWrites(objects, format, false)[i] == format(objects[i]) + "\n"
  {
  }

  /** Two lines are written the same exactly when the data are the same. */
  lemma LinesInjective(x: string, y: string)
    ensures x + "\n" == y + "\n" <==> x == y
  {
    if x + "\n" == y + "\n" {
      assert |x| == |y|;
      assert forall k :: 0 <= k < |x| ==> x[k] == (x + "\n")[k] == (y + "\n")[k] == y[k];
    }
  }

  /** A record already written in this cycle is not written again in unique mode. */
  lemma RepeatWritesNothing(objects: seq<Fields>, format: Fields -> string, o: Fields)
    requires o in objects
    ensures CycleWrites(objects + [o], format, true) == CycleWrites(objects, format, true)
  {
    var f := Formatted(objects, format);
    assert Formatted(objects + [o], format) == f + [format(o)];
    var i :| 0 <= i < |objects| && objects[i] == o;
    assert f[i] == format(o);
    DedupAppendPresent(f, format(o));
  }
}
