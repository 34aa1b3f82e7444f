/** The client side of `src/bin/client.rs`: parsing the `--big_disk`
    option and the per-stage dispatch loop of `run_client`. */
module Client {
  import opened Contract
  import opened Hosts

  // ---------------------------------------------------------------------
  // `--big_disk host:path` entries

  function Occurrences(s: string, c: char): nat
  {
    if s == [] then 0 else (if s[0] == c then 1 else 0) + Occurrences(s[1..], c)
  }

  /** The pieces joined back together with the separator between them. */
  function Join(parts: seq<string>, sep: char): string
    requires parts != []
  {
    if |parts| == 1 then parts[0] else parts[0] + [sep] + Join(parts[1..], sep)
  }

  /** `s.split(sep)`: the pieces between the occurrences of sep, one more
      piece than there are separators. */
  function Split(s: string, sep: char): (parts: seq<string>)
    ensures |parts| == Occurrences(s, sep) + 1
    ensures forall k :: 0 <= k < |parts| ==> sep !in parts[k]
    ensures Join(parts, sep) == s
    decreases |s|
  {
    if s == [] then [""]
    else
      var tail := Split(s[1..], sep);
      if s[0] == sep then [""] + tail
      else [[s[0]] + tail[0]] + tail[1..]
  }

  /** An entry the option loop accepts: it splits on `:` into exactly two parts. */
  predicate IsEntry(arg: string)
  {
    |Split(arg, ':')| == 2
  }

  function EntryHost(arg: string): string
    requires IsEntry(arg)
  {
    Split(arg, ':')[0]
  }

  function EntryPath(arg: string): string
    requires IsEntry(arg)
  {
    Split(arg, ':')[1]
  }

  /** An accepted entry is exactly `host:path` with no other colon. */
  lemma EntryShape(arg: string)
    ensures IsEntry(arg) <==> Occurrences(arg, ':') == 1
    ensures IsEntry(arg) ==>
      arg == EntryHost(arg) + ":" + EntryPath(arg) &&
      ':' !in EntryHost(arg) && ':' !in EntryPath(arg)
  {
    var parts := Split(arg, ':');
    if |parts| == 2 {
      assert Join(parts[1..], ':') == parts[1];
    }
  }

  /** The host -> path pairs of accepted entries, in order. */
  function EntryPairs(args: seq<string>): (pairs: seq<(string, string)>)
    requires forall a :: a in args ==> IsEntry(a)
    ensures |pairs| == |args|
    ensures forall i :: 0 <= i < |args| ==> pairs[i] == (EntryHost(args[i]), EntryPath(args[i]))
  {
    seq(|args|, i requires 0 <= i < |args| => (EntryHost(args[i]), EntryPath(args[i])))
  }

  /** Inserting the pairs one after the other into an empty map. */
  function InsertAll(pairs: seq<(string, string)>): map<string, string>
  {
    if pairs == [] then map[]
    else InsertAll(pairs[..|pairs| - 1])[pairs[|pairs| - 1].0 := pairs[|pairs| - 1].1]
  }

  /** The map the option loop builds from accepted entries. */
  function OverrideMap(args: seq<string>): (m: map<string, string>)
    requires forall a :: a in args ==> IsEntry(a)
    ensures forall h :: h in m <==> exists i :: 0 <= i < |args| && EntryHost(args[i]) == h
  {
    var pairs := EntryPairs(args);
    InsertAllKeys(pairs);
    InsertAll(pairs)
  }

  /** The keys of InsertAll are exactly the pairs' hosts. */
  lemma {:induction false} InsertAllKeys(pairs: seq<(string, string)>)
    ensures forall h :: h in InsertAll(pairs) <==> exists i :: 0 <= i < |pairs| && pairs[i].0 == h
    decreases |pairs|
  {
    if pairs != [] {
      var n := |pairs| - 1;
      var init := pairs[..n];
      InsertAllKeys(init);
      assert forall i :: 0 <= i < n ==> init[i] == pairs[i];
    }
  }

  /** Each host is mapped to the path of its LAST pair: a repeated host
      keeps the last value. */
  lemma {:induction false} InsertAllLastWins(pairs: seq<(string, string)>)
    ensures forall i :: 0 <= i < |pairs| && (forall j :: i < j < |pairs| ==> pairs[j].0 != pairs[i].0) ==>
                        pairs[i].0 in InsertAll(pairs) && InsertAll(pairs)[pairs[i].0] == pairs[i].1
    decreases |pairs|
  {
    if pairs != [] {
      var n := |pairs| - 1;
      var init := pairs[..n];
      var m := InsertAll(init);
      InsertAllLastWins(init);
      assert InsertAll(pairs) == m[pairs[n].0 := pairs[n].1];
      forall i | 0 <= i < n && (forall j :: i < j < |pairs| ==> pairs[j].0 != pairs[i].0)
        ensures pairs[i].0 in InsertAll(pairs) && InsertAll(pairs)[pairs[i].0] == pairs[i].1
      {
        assert init[i] == pairs[i];
        assert forall j :: i < j < n ==> init[j] == pairs[j];
        assert pairs[i].0 in m && m[pairs[i].0] == pairs[i].1;
        assert pairs[n].0 != pairs[i].0;
      }
    }
  }

  /** The `big_disk` block of `run_client`: no option gives no map; an entry
      that does not split into exactly two parts panics; otherwise the map
      of every entry, later entries overriding earlier ones. */
  method ParseBigDisks(bigDisk: Option<seq<string>>) returns (r: Outcome<Option<map<string, string>>>)
    ensures bigDisk.None? ==> r == Done(None)
    ensures bigDisk.Some? && (forall a :: a in bigDisk.value ==> IsEntry(a)) ==>
            r == Done(Some(OverrideMap(bigDisk.value)))
    ensures bigDisk.Some? && !(forall a :: a in bigDisk.value ==> IsEntry(a)) ==>
            r == Panic("BIGGUS_DISKUS must contain a : for")
  {
    match bigDisk
    case None =>
      r := Done(None);
    case Some(args) =>
      var bigDisks := map[];
      for i := 0 to |args|
        invariant forall a :: a in args[..i] ==> IsEntry(a)
        invariant bigDisks == OverrideMap(args[..i])
      {
        var split := Split(args[i], ':');
        if |split| != 2 {
          assert args[i] in args && !IsEntry(args[i]);
          r := Panic("BIGGUS_DISKUS must contain a : for");
          return;
        }
        assert args[..i + 1][..i] == args[..i];
        assert EntryPairs(args[..i + 1]) == EntryPairs(args[..i]) + [(split[0], split[1])];
        bigDisks := bigDisks[split[0] := split[1]];
      }
      assert args[..|args|] == args;
      r := Done(Some(bigDisks));
  }

  // ---------------------------------------------------------------------
  // Per-stage dispatch

  /** One check the client starts: a local subprocess of this program with
      these arguments, or a request submitted to a connected host. */
  datatype Dispatch = Local(args: seq<string>, request: Request) | Remote(host: string, request: Request)

  /** The arguments of the local subprocess: `server <request json>`. */
  function LocalArgs(codec: Json, request: Request): seq<string>
  {
    ["server", codec.requestToString(request)]
  }

  /** How the dispatch loop ends: after every stage, or at the panic of a
      host missing from the connection map. */
  datatype Run = Completed(trace: seq<Dispatch>) | Panicked(trace: seq<Dispatch>, message: string)

  /** The override for a host, if the option was given and names it. */
  function Override(bigDisks: Option<map<string, string>>, host: string): Option<string>
  {
    match bigDisks
    case Some(disks) => if host in disks then Some(disks[host]) else None
    case None => None
  }

  /** The preferred-computer list before stage k is processed: the
      pipeline's default, then the lists of stages 0 to k - 1. */
  function PreferredBefore(pipe: Pipe, k: int): (list: seq<string>)
    requires 0 <= k <= |pipe.stages|
    ensures |ListOrEmpty(pipe.preferredComputer)| <= |list|
    ensures ListOrEmpty(pipe.preferredComputer) <= list
  {
    if k == 0 then ListOrEmpty(pipe.preferredComputer)
    else
      var before := PreferredBefore(pipe, k - 1);
      var list := before + ListOrEmpty(pipe.stages[k - 1].preferredComputer);
      PrefixOfAppend(ListOrEmpty(pipe.preferredComputer), before, ListOrEmpty(pipe.stages[k - 1].preferredComputer), list);
      list
  }

  /** The preferred-computer list when stage k is processed. */
  function PreferredAt(pipe: Pipe, k: int): seq<string>
    requires 0 <= k < |pipe.stages|
  {
    PreferredBefore(pipe, k + 1)
  }

  /** One request per listed host, in list order, each carrying that host's
      override (or none). */
  function RemoteDispatches(stage: Stage, preferred: seq<string>,
                            bigDisks: Option<map<string, string>>, runs: seq<string>): (ds: seq<Dispatch>)
    ensures |ds| == |preferred|
    ensures forall i :: 0 <= i < |ds| ==>
      ds[i].Remote? && ds[i].host == preferred[i] && ds[i].request.bigDisk == Override(bigDisks, preferred[i])
  {
    seq(|preferred|, i requires 0 <= i < |preferred| =>
      Remote(preferred[i], Request(stage, Override(bigDisks, preferred[i]), runs)))
  }

  /** The dispatches for one stage under the accumulated preference list:
      one local `server` run if the list is empty, else the remote ones. */
  function StageDispatches(codec: Json, stage: Stage, preferred: seq<string>,
                           bigDisks: Option<map<string, string>>, runs: seq<string>): (ds: seq<Dispatch>)
    ensures |ds| == if |preferred| == 0 then 1 else |preferred|
    ensures ds[0].Local? <==> |preferred| == 0
    ensures |preferred| > 0 ==> forall i :: 0 <= i < |ds| ==> ds[i].Remote? && ds[i].host == preferred[i]
  {
    if |preferred| == 0 then
      var request := Request(stage, None, runs);
      [Local(LocalArgs(codec, request), request)]
    else RemoteDispatches(stage, preferred, bigDisks, runs)
  }

  /** Every dispatch of stages s, s + 1, ... in order, if no host is
      missing: what is left of the loop when it reaches stage s. */
  function PlanFrom(codec: Json, pipe: Pipe, bigDisks: Option<map<string, string>>, runs: seq<string>, s: int)
    : (ds: seq<Dispatch>)
    requires 0 <= s <= |pipe.stages|
    ensures |ds| >= |pipe.stages| - s
    decreases |pipe.stages| - s
  {
    if s == |pipe.stages| then []
    else StageDispatches(codec, pipe.stages[s], PreferredAt(pipe, s), bigDisks, runs) +
         PlanFrom(codec, pipe, bigDisks, runs, s + 1)
  }

  /** Every dispatch of the run, in order, if no host is missing. */
  function Plan(codec: Json, pipe: Pipe, bigDisks: Option<map<string, string>>, runs: seq<string>): (ds: seq<Dispatch>)
    ensures |ds| >= |pipe.stages|
  {
    PlanFrom(codec, pipe, bigDisks, runs, 0)
  }

  /** Every remote dispatch goes to a connected host. */
  predicate AllConnected(trace: seq<Dispatch>, connected: set<string>)
  {
    forall k :: 0 <= k < |trace| && trace[k].Remote? ==> trace[k].host in connected
  }

  /** The connection map holds valid hosts, each under its own name.  Their
      shells are distinct, since each valid host's shell is labelled with
      that host's name. */
  ghost predicate HostsValid(connections: map<string, Host>)
    reads set h | h in connections :: connections[h]
    reads set h | h in connections :: connections[h].shell
  {
    forall h :: h in connections ==> connections[h].Valid() && connections[h].hostname == h
  }

  /** A prefix of a is a prefix of a followed by anything. */
  lemma PrefixOfAppend<T>(p: seq<T>, a: seq<T>, b: seq<T>, c: seq<T>)
    requires p <= a && c == a + b
    ensures p <= c
  {
    assert c[..|a|] == a;
  }

  /** Pushes each of the stage's preferred computers, if it has a list,
      onto the running list: nothing is removed, reordered or deduplicated. */
  method AppendPreferences(preferred: seq<string>, stage: Stage) returns (extended: seq<string>)
    ensures extended == preferred + ListOrEmpty(stage.preferredComputer)
  {
    extended := preferred;
    match stage.preferredComputer {
      case Some(computers) =>
        for c := 0 to |computers|
          invariant extended == preferred + computers[..c]
        {
          extended := extended + [computers[c]];
        }
        assert computers[..|computers|] == computers;
      case None =>
    }
  }

  /** The preference list is never reset or shrunk: the list of an earlier
      stage is a prefix of the list of every later stage. */
  lemma {:induction false} PreferredGrows(pipe: Pipe, j: int, k: int)
    requires 0 <= j <= k < |pipe.stages|
    ensures PreferredAt(pipe, j) <= PreferredAt(pipe, k)
    decreases k
  {
    if j < k {
      PreferredGrows(pipe, j, k - 1);
      PrefixOfAppend(PreferredAt(pipe, j), PreferredAt(pipe, k - 1), ListOrEmpty(pipe.stages[k].preferredComputer),
                     PreferredAt(pipe, k));
    }
  }

  /** Stage k runs locally exactly when neither the pipeline's default nor
      any stage up to k names a computer. */
  lemma {:induction false} LocalIffNoPreference(pipe: Pipe, k: int)
    requires 0 <= k < |pipe.stages|
    ensures PreferredAt(pipe, k) == [] <==>
            ListOrEmpty(pipe.preferredComputer) == [] &&
            forall j :: 0 <= j <= k ==> ListOrEmpty(pipe.stages[j].preferredComputer) == []
    decreases k
  {
    var before, own := PreferredBefore(pipe, k), ListOrEmpty(pipe.stages[k].preferredComputer);
    assert PreferredAt(pipe, k) == before + own;
    assert |before + own| == |before| + |own|;
    if k > 0 {
      LocalIffNoPreference(pipe, k - 1);
      assert before == PreferredAt(pipe, k - 1);
    }
  }

  /** A dispatch carries the run list; a local one has no override and runs
      `server <request json>`; a remote one carries its host's override, or
      none. */
  predicate WellFormed(codec: Json, bigDisks: Option<map<string, string>>, runs: seq<string>, d: Dispatch)
  {
    d.request.runNumberList == runs &&
    (d.Local? ==> d.request.bigDisk.None? && d.args == LocalArgs(codec, d.request)) &&
    (d.Remote? ==> d.request.bigDisk == Override(bigDisks, d.host))
  }

  /** Every dispatch of one stage is well formed and requests that stage. */
  lemma StageRequests(codec: Json, stage: Stage, preferred: seq<string>,
                      bigDisks: Option<map<string, string>>, runs: seq<string>)
    ensures var all := StageDispatches(codec, stage, preferred, bigDisks, runs);
      forall k :: 0 <= k < |all| ==> WellFormed(codec, bigDisks, runs, all[k])
    ensures var all := StageDispatches(codec, stage, preferred, bigDisks, runs);
      forall k :: 0 <= k < |all| ==> all[k].request.stage == stage
  {
  }

  /** Every planned dispatch is well formed. */
  lemma {:induction false} PlanRequests(codec: Json, pipe: Pipe, bigDisks: Option<map<string, string>>,
                                        runs: seq<string>, s: int)
    requires 0 <= s <= |pipe.stages|
    ensures var plan := PlanFrom(codec, pipe, bigDisks, runs, s);
      forall k :: 0 <= k < |plan| ==> WellFormed(codec, bigDisks, runs, plan[k])
    decreases |pipe.stages| - s
  {
    if s < |pipe.stages| {
      var stage := StageDispatches(codec, pipe.stages[s], PreferredAt(pipe, s), bigDisks, runs);
      var after := PlanFrom(codec, pipe, bigDisks, runs, s + 1);
      PlanRequests(codec, pipe, bigDisks, runs, s + 1);
      StageRequests(codec, pipe.stages[s], PreferredAt(pipe, s), bigDisks, runs);
      PlanStep(codec, pipe, bigDisks, runs, s);
      WellFormedAppend(codec, bigDisks, runs, stage, after);
    }
  }

  lemma WellFormedAppend(codec: Json, bigDisks: Option<map<string, string>>, runs: seq<string>,
                         a: seq<Dispatch>, b: seq<Dispatch>)
    requires forall k :: 0 <= k < |a| ==> WellFormed(codec, bigDisks, runs, a[k])
    requires forall k :: 0 <= k < |b| ==> WellFormed(codec, bigDisks, runs, b[k])
    ensures forall k :: 0 <= k < |a + b| ==> WellFormed(codec, bigDisks, runs, (a + b)[k])
  {
    forall k | 0 <= k < |a + b| ensures WellFormed(codec, bigDisks, runs, (a + b)[k]) {
      if k < |a| {
        assert (a + b)[k] == a[k];
      } else {
        assert (a + b)[k] == b[k - |a|];
      }
    }
  }

  /** The accumulation example: stage 1 has no preference, stage 2 prefers
      h1, stage 3 prefers h2.  Stage 1 runs locally, stage 2 on h1, and
      stage 3 on h1 and then h2. */
  lemma AccumulationExample(codec: Json, s1: Stage, s2: Stage, s3: Stage, runs: seq<string>)
    requires s1.preferredComputer.None?
    requires s2.preferredComputer == Some(["h1"]) && s3.preferredComputer == Some(["h2"])
    ensures var pipe := Pipe([s1, s2, s3], None);
      Plan(codec, pipe, None, runs) ==
        [Local(LocalArgs(codec, Request(s1, None, runs)), Request(s1, None, runs)),
         Remote("h1", Request(s2, None, runs)),
         Remote("h1", Request(s3, None, runs)),
         Remote("h2", Request(s3, None, runs))]
  {
    var pipe := Pipe([s1, s2, s3], None);
    assert PreferredBefore(pipe, 1) == [];
    assert PreferredBefore(pipe, 2) == [] + ["h1"] == ["h1"];
    assert PreferredBefore(pipe, 3) == ["h1"] + ["h2"] == ["h1", "h2"];
    var l1 := Local(LocalArgs(codec, Request(s1, None, runs)), Request(s1, None, runs));
    var r2 := Remote("h1", Request(s2, None, runs));
    var r31, r32 := Remote("h1", Request(s3, None, runs)), Remote("h2", Request(s3, None, runs));
    assert StageDispatches(codec, s1, PreferredAt(pipe, 0), None, runs) == [l1];
    assert StageDispatches(codec, s2, PreferredAt(pipe, 1), None, runs) == [r2];
    assert StageDispatches(codec, s3, PreferredAt(pipe, 2), None, runs) == [r31, r32];
    assert PlanFrom(codec, pipe, None, runs, 3) == [];
    PlanStep(codec, pipe, None, runs, 2);
    assert PlanFrom(codec, pipe, None, runs, 2) == [r31, r32];
    PlanStep(codec, pipe, None, runs, 1);
    assert PlanFrom(codec, pipe, None, runs, 1) == [r2, r31, r32];
    PlanStep(codec, pipe, None, runs, 0);
  }

  // ---------------------------------------------------------------------
  // Executing the plan against the hosts' shells

  /** A connected host's shell as the client sees it: the reads it will
      deliver, how many of them have been taken, and the commands written
      to it. */
  datatype ShellState = ShellState(stream: seq<ReadResult>, pos: nat, written: seq<string>)

  /** A shell state whose position lies within its reads. */
  type OpenShell = s: ShellState | s.pos <= |s.stream| witness ShellState([], 0, [])

  /** m holds the shell state of every connected host. */
  ghost predicate Mirrors(connections: map<string, Host>, m: map<string, OpenShell>)
    reads set h | h in connections :: connections[h].shell
  {
    (forall h :: h in m <==> h in connections) &&
    forall h :: h in connections ==>
      m[h] == ShellState(connections[h].shell.stream, connections[h].shell.pos, connections[h].shell.written)
  }

  /** `submit_request` on one shell: the command is written, the reads the
      loop takes are consumed, and the scan's reply is returned. */
  function Submit(codec: Json, shell: OpenShell, request: Request): (r: (OpenShell, Outcome<Response>))
    ensures r.0.stream == shell.stream && shell.pos <= r.0.pos
    ensures r.0.written == shell.written + [Command(codec, request)]
    ensures r.1.Panic? ==> r.1.message == Undecodable && shell.pos < r.0.pos
  {
    var sc := ScanFrom(shell.stream[shell.pos..], "");
    (shell.(pos := shell.pos + sc.consumed, written := shell.written + [Command(codec, request)]),
     Reply(codec, sc))
  }

  /** How executing the plan ends: the number of dispatches started (the
      one whose reply panicked included), the shells after them, and the
      panic that stopped the run, if any. */
  datatype Exec = Exec(done: nat, shells: map<string, OpenShell>, halt: Option<string>)

  const HostNotFound: string := "host not found!"

  const Undecodable: string := "cannot deserialize response"

  /** Executes the dispatches of plan from index i on against the shells
      of the connected hosts.  A local check touches no shell; a remote one
      on a host without a connection panics with "host not found!";
      otherwise the request is submitted to that host's shell, and a reply
      that is itself a panic ends the run. */
  function Execute(codec: Json, plan: seq<Dispatch>, i: nat, shells: map<string, OpenShell>): (e: Exec)
    requires i <= |plan|
    ensures i <= e.done <= |plan|
    ensures e.halt.None? ==> e.done == |plan|
    ensures forall h :: h in e.shells <==> h in shells
    decreases |plan| - i
  {
    if i == |plan| then Exec(i, shells, None)
    else
      match plan[i]
      case Local(_, _) => Execute(codec, plan, i + 1, shells)
      case Remote(h, request) =>
        if h !in shells then Exec(i, shells, Some(HostNotFound))
        else
          var submitted := Submit(codec, shells[h], request);
          var after := shells[h := submitted.0];
          match submitted.1
          case Panic(message) => Exec(i + 1, after, Some(message))
          case Done(_) => Execute(codec, plan, i + 1, after)
  }

  /** One dispatch of Execute. */
  lemma ExecuteStep(codec: Json, plan: seq<Dispatch>, i: nat, shells: map<string, OpenShell>)
    requires i < |plan|
    ensures plan[i].Local? ==> Execute(codec, plan, i, shells) == Execute(codec, plan, i + 1, shells)
    ensures plan[i].Remote? && plan[i].host !in shells ==>
      Execute(codec, plan, i, shells) == Exec(i, shells, Some(HostNotFound))
    ensures plan[i].Remote? && plan[i].host in shells ==>
      var submitted := Submit(codec, shells[plan[i].host], plan[i].request);
      var after := shells[plan[i].host := submitted.0];
      Execute(codec, plan, i, shells) ==
        if submitted.1.Panic? then Exec(i + 1, after, Some(submitted.1.message))
        else Execute(codec, plan, i + 1, after)
  {
  }

  lemma ExecuteLocal(codec: Json, plan: seq<Dispatch>, i: nat, j: nat, shells: map<string, OpenShell>)
    requires i < |plan| && plan[i].Local? && j == i + 1
    ensures Execute(codec, plan, i, shells) == Execute(codec, plan, j, shells)
  {
  }

  lemma ExecuteEnd(codec: Json, plan: seq<Dispatch>, i: nat, shells: map<string, OpenShell>)
    requires i == |plan|
    ensures Execute(codec, plan, i, shells) == Exec(i, shells, None)
  {
  }

  /** The run as the source ends it: after the whole plan, or at the panic
      that stopped it, with the dispatches started up to there. */
  function RunOf(plan: seq<Dispatch>, e: Exec): Run
    requires e.done <= |plan|
  {
    if e.halt.None? then Completed(plan) else Panicked(plan[..e.done], e.halt.value)
  }

  /** The command a dispatch writes to host h's shell, if any. */
  function CommandFor(codec: Json, d: Dispatch, h: string): seq<string>
  {
    if d.Remote? && d.host == h then [Command(codec, d.request)] else []
  }

  /** The commands a sequence of dispatches writes to host h's shell, in order. */
  function CommandsTo(codec: Json, ds: seq<Dispatch>, h: string): seq<string>
  {
    if ds == [] then [] else CommandFor(codec, ds[0], h) + CommandsTo(codec, ds[1..], h)
  }

  /** Host by host, shells have taken what s0 had taken followed by the
      commands of the dispatches sent. */
  ghost predicate WrittenSince(codec: Json, s0: map<string, OpenShell>, shells: map<string, OpenShell>,
                               sent: seq<Dispatch>)
  {
    forall h {:trigger CommandsTo(codec, sent, h)} ::
      h in s0 ==> h in shells && shells[h].written == s0[h].written + CommandsTo(codec, sent, h)
  }

  lemma WrittenNone(codec: Json, shells: map<string, OpenShell>)
    ensures WrittenSince(codec, shells, shells, [])
  {
    forall h | h in shells
      ensures shells[h].written == shells[h].written + CommandsTo(codec, [], h)
    {
      assert shells[h].written + [] == shells[h].written;
    }
  }

  lemma WrittenLocal(codec: Json, shells: map<string, OpenShell>, d: Dispatch)
    requires d.Local?
    ensures WrittenSince(codec, shells, shells, [d])
  {
    forall h | h in shells
      ensures shells[h].written == shells[h].written + CommandsTo(codec, [d], h)
    {
      assert [d][1..] == [];
    }
  }

  lemma WrittenOne(codec: Json, shells: map<string, OpenShell>, after: map<string, OpenShell>, d: Dispatch)
    requires forall h :: h in shells ==> h in after && after[h].written == shells[h].written + CommandFor(codec, d, h)
    ensures WrittenSince(codec, shells, after, [d])
  {
    forall h | h in shells
      ensures after[h].written == shells[h].written + CommandsTo(codec, [d], h)
    {
      assert [d][1..] == [];
      assert CommandFor(codec, d, h) + [] == CommandFor(codec, d, h);
    }
  }

  /** WrittenSince composes along consecutive stretches of dispatches. */
  lemma WrittenMore(codec: Json, s0: map<string, OpenShell>, s1: map<string, OpenShell>,
                    s2: map<string, OpenShell>, sent: seq<Dispatch>, more: seq<Dispatch>)
    requires WrittenSince(codec, s0, s1, sent) && WrittenSince(codec, s1, s2, more)
    ensures WrittenSince(codec, s0, s2, sent + more)
  {
    forall h | h in s0
      ensures h in s2 && s2[h].written == s0[h].written + CommandsTo(codec, sent + more, h)
    {
      CommandsToConcat(codec, sent, more, h);
      AppendAssociates(s0[h].written, CommandsTo(codec, sent, h), CommandsTo(codec, more, h));
    }
  }

  lemma {:induction false} CommandsToConcat(codec: Json, ds: seq<Dispatch>, more: seq<Dispatch>, h: string)
    ensures CommandsTo(codec, ds + more, h) == CommandsTo(codec, ds, h) + CommandsTo(codec, more, h)
    decreases |ds|
  {
    if ds == [] {
      assert ds + more == more;
    } else {
      assert (ds + more)[1..] == ds[1..] + more;
      CommandsToConcat(codec, ds[1..], more, h);
      AppendAssociates(CommandFor(codec, ds[0], h), CommandsTo(codec, ds[1..], h), CommandsTo(codec, more, h));
    }
  }

  lemma CommandsToSlice(codec: Json, plan: seq<Dispatch>, i: int, j: int, h: string)
    requires 0 <= i < j <= |plan|
    ensures CommandsTo(codec, plan[i..j], h) == CommandFor(codec, plan[i], h) + CommandsTo(codec, plan[i + 1..j], h)
  {
    assert plan[i..j][1..] == plan[i + 1..j];
  }

  /** Host h's shell receives exactly the commands of the started
      dispatches addressed to it, in plan order. */
  lemma {:induction false} ExecuteWrites(codec: Json, plan: seq<Dispatch>, i: nat, shells: map<string, OpenShell>,
                                         h: string)
    requires i <= |plan| && h in shells
    ensures var e := Execute(codec, plan, i, shells);
      e.shells[h].written == shells[h].written + CommandsTo(codec, plan[i..e.done], h)
    decreases |plan| - i
  {
    var e := Execute(codec, plan, i, shells);
    if i == |plan| || (plan[i].Remote? && plan[i].host !in shells) {
      assert plan[i..e.done] == [];
      return;
    }
    ExecuteStep(codec, plan, i, shells);
    CommandsToSlice(codec, plan, i, e.done, h);
    var d := plan[i];
    if d.Local? {
      ExecuteWrites(codec, plan, i + 1, shells, h);
    } else {
      var submitted := Submit(codec, shells[d.host], d.request);
      var after := shells[d.host := submitted.0];
      assert after[h].written == shells[h].written + CommandFor(codec, d, h);
      if submitted.1.Panic? {
        assert plan[i + 1..e.done] == [];
      } else {
        ExecuteWrites(codec, plan, i + 1, after, h);
      }
    }
  }

  /** A host that none of the started dispatches addresses keeps its
      shell as it was: nothing is read from it or written to it. */
  lemma {:induction false} ExecuteUntouched(codec: Json, plan: seq<Dispatch>, i: nat, shells: map<string, OpenShell>,
                                            h: string)
    requires i <= |plan| && h in shells
    requires forall k :: i <= k < |plan| ==> !(plan[k].Remote? && plan[k].host == h)
    ensures Execute(codec, plan, i, shells).shells[h] == shells[h]
    decreases |plan| - i
  {
    if i == |plan| || (plan[i].Remote? && plan[i].host !in shells) {
      return;
    }
    ExecuteStep(codec, plan, i, shells);
    var d := plan[i];
    if d.Local? {
      ExecuteUntouched(codec, plan, i + 1, shells, h);
    } else {
      var after := shells[d.host := Submit(codec, shells[d.host], d.request).0];
      if !Submit(codec, shells[d.host], d.request).1.Panic? {
        ExecuteUntouched(codec, plan, i + 1, after, h);
      }
    }
  }

  /** Every dispatch started went to a connected host (or was local); a
      run stopped by "host not found!" stops on the first remote dispatch
      whose host has no connection; any other stop is a reply that did not
      deserialize. */
  lemma {:induction false} ExecuteStops(codec: Json, plan: seq<Dispatch>, i: nat, shells: map<string, OpenShell>)
    requires i <= |plan|
    ensures var e := Execute(codec, plan, i, shells);
      AllConnected(plan[i..e.done], shells.Keys) &&
      (e.halt == Some(HostNotFound) ==> e.done < |plan| && plan[e.done].Remote? && plan[e.done].host !in shells) &&
      (e.halt.Some? && e.halt != Some(HostNotFound) ==>
         e.halt == Some(Undecodable) && i < e.done && plan[e.done - 1].Remote?)
    decreases |plan| - i
  {
    var e := Execute(codec, plan, i, shells);
    if i == |plan| || (plan[i].Remote? && plan[i].host !in shells) {
      assert plan[i..e.done] == [];
      return;
    }
    ExecuteStep(codec, plan, i, shells);
    var d := plan[i];
    var after := shells;
    if d.Remote? {
      after := shells[d.host := Submit(codec, shells[d.host], d.request).0];
    }
    if e != Exec(i + 1, after, e.halt) {
      ExecuteStops(codec, plan, i + 1, after);
    } else {
      assert plan[i + 1..e.done] == [];
    }
    var ds := plan[i..e.done];
    assert ds[0] == d && ds[1..] == plan[i + 1..e.done];
    forall k | 0 <= k < |ds| && ds[k].Remote? ensures ds[k].host in shells.Keys {
      if k > 0 {
        assert ds[k] == ds[1..][k - 1];
      }
    }
  }

  /** What a whole run does: it performs a prefix of the plan, every host it
      reaches is connected, each shell receives the commands addressed to
      it in order, a "host not found!" panic sits at the first unconnected
      host, and a plan that names an unconnected host never completes. */
  lemma RunFacts(codec: Json, plan: seq<Dispatch>, shells: map<string, OpenShell>)
    ensures var e := Execute(codec, plan, 0, shells);
      var run := RunOf(plan, e);
      run.trace <= plan && |run.trace| == e.done && AllConnected(run.trace, shells.Keys) &&
      (forall h :: h in shells ==> e.shells[h].written == shells[h].written + CommandsTo(codec, run.trace, h)) &&
      (run.Panicked? && run.message == HostNotFound ==>
         |run.trace| < |plan| && plan[|run.trace|].Remote? && plan[|run.trace|].host !in shells) &&
      (!AllConnected(plan, shells.Keys) ==> run.Panicked? && run.trace < plan) &&
      (AllConnected(plan, shells.Keys) ==> run.Completed? || run.message == Undecodable)
  {
    var e := Execute(codec, plan, 0, shells);
    ExecuteStops(codec, plan, 0, shells);
    assert plan[0..e.done] == RunOf(plan, e).trace;
    forall h | h in shells
      ensures e.shells[h].written == shells[h].written + CommandsTo(codec, RunOf(plan, e).trace, h)
    {
      ExecuteWrites(codec, plan, 0, shells, h);
    }
  }

  /** all occurs in plan from position base on: plan[base] is all[0],
      plan[base + 1] is all[1], and so on. */
  predicate InPlan(plan: seq<Dispatch>, base: nat, all: seq<Dispatch>)
    decreases |all|
  {
    base + |all| <= |plan| &&
    (all == [] || (plan[base] == all[0] && InPlan(plan, base + 1, all[1..])))
  }

  lemma {:induction false} InPlanAt(plan: seq<Dispatch>, base: nat, all: seq<Dispatch>, k: int, at: int)
    requires InPlan(plan, base, all) && 0 <= k < |all| && at == base + k
    ensures 0 <= at < |plan| && plan[at] == all[k]
    decreases k
  {
    if k > 0 {
      InPlanAt(plan, base + 1, all[1..], k - 1, at);
    }
  }

  /** The whole plan occurs in itself from position 0 on. */
  lemma {:induction false} InPlanSuffix(plan: seq<Dispatch>, i: nat)
    requires i <= |plan|
    ensures InPlan(plan, i, plan[i..])
    decreases |plan| - i
  {
    if i < |plan| {
      InPlanSuffix(plan, i + 1);
      assert plan[i..][1..] == plan[i + 1..];
    }
  }

  /** A stage's dispatches followed by the later stages' occur in the plan
      iff both parts do, one after the other. */
  lemma {:induction false} InPlanSplit(plan: seq<Dispatch>, at: nat, all: seq<Dispatch>, rest: seq<Dispatch>)
    requires InPlan(plan, at, all + rest)
    ensures InPlan(plan, at, all) && InPlan(plan, at + |all|, rest)
    decreases |all|
  {
    if all == [] {
      assert all + rest == rest;
    } else {
      assert (all + rest)[1..] == all[1..] + rest;
      InPlanSplit(plan, at + 1, all[1..], rest);
    }
  }

  /** After a stage sent a prefix of its dispatches, the plan up to the
      new position is what has been sent; after all of them, the later
      stages' dispatches occur from the new position on. */
  lemma AdvanceInPlan(plan: seq<Dispatch>, at: nat, trace: seq<Dispatch>, all: seq<Dispatch>, rest: seq<Dispatch>,
                sent: seq<Dispatch>, next: nat)
    requires at <= |plan| && plan[..at] == trace && InPlan(plan, at, all + rest)
    requires sent <= all && next == at + |sent|
    ensures next <= |plan| && plan[..next] == trace + sent
    ensures sent == all ==> InPlan(plan, next, rest)
  {
    InPlanSplit(plan, at, all, rest);
    forall k | 0 <= k < |sent|
      ensures plan[at + k] == sent[k]
    {
      InPlanAt(plan, at, all, k, at + k);
    }
  }

  /** The inner loop of `run_client`'s remote branch: the request, reused
      for every host, gets that host's override and is submitted to the
      host's shell, in list order.  It stops at the first host without a
      connection, and at a reply that panics.  s0 and shells are the
      connected hosts' shells before and after. */
  method SubmitToEach(codec: Json, stage: Stage, runs: seq<string>, preferred: seq<string>,
                      bigDisks: Option<map<string, string>>, connections: map<string, Host>,
                      ghost plan: seq<Dispatch>, ghost base: nat, ghost s0: map<string, OpenShell>)
    returns (sent: seq<Dispatch>, halt: Option<string>, ghost shells: map<string, OpenShell>, ghost at: nat)
    requires HostsValid(connections) && Mirrors(connections, s0)
    requires InPlan(plan, base, RemoteDispatches(stage, preferred, bigDisks, runs))
    modifies set h | h in connections :: connections[h].shell
    ensures HostsValid(connections) && Mirrors(connections, shells)
    ensures sent <= RemoteDispatches(stage, preferred, bigDisks, runs)
    ensures halt.None? ==> sent == RemoteDispatches(stage, preferred, bigDisks, runs)
    ensures at == base + |sent|
    ensures Execute(codec, plan, base, s0) ==
            if halt.None? then Execute(codec, plan, at, shells)
            else Exec(at, shells, halt)
    ensures WrittenSince(codec, s0, shells, sent)
  {
    ghost var all := RemoteDispatches(stage, preferred, bigDisks, runs);
    var request := Request(stage, None, runs);
    sent, shells := [], s0;
    at := base;
    for i := 0 to |preferred|
      invariant HostsValid(connections) && Mirrors(connections, shells)
      invariant sent == all[..i] && at == base + i
      invariant Execute(codec, plan, base, s0) == Execute(codec, plan, at, shells)
      invariant WrittenSince(codec, s0, shells, sent)
      invariant request.stage == stage && request.runNumberList == runs
    {
      request, sent, halt, shells, at :=
        SubmitEntry(codec, stage, runs, preferred, bigDisks, connections, i, request, sent, plan, base, s0, shells, at);
      if halt.Some? {
        return;
      }
    }
    assert all[..|preferred|] == all;
    halt := None;
  }

  /** Turn i of that loop, stated in the loop's own terms: sent grows by
      the i-th planned dispatch, or the loop stops where Execute does. */
  method SubmitEntry(codec: Json, stage: Stage, runs: seq<string>, preferred: seq<string>,
                     bigDisks: Option<map<string, string>>, connections: map<string, Host>, i: nat,
                     request: Request, sent: seq<Dispatch>, ghost plan: seq<Dispatch>, ghost base: nat,
                     ghost s0: map<string, OpenShell>, ghost shells: map<string, OpenShell>, ghost at: nat)
    returns (next: Request, extended: seq<Dispatch>, halt: Option<string>,
             ghost after: map<string, OpenShell>, ghost resume: nat)
    requires i < |preferred|
    requires HostsValid(connections) && Mirrors(connections, shells)
    requires InPlan(plan, base, RemoteDispatches(stage, preferred, bigDisks, runs))
    requires sent == RemoteDispatches(stage, preferred, bigDisks, runs)[..i] && at == base + i
    requires Execute(codec, plan, base, s0) == Execute(codec, plan, at, shells)
    requires WrittenSince(codec, s0, shells, sent)
    requires request.stage == stage && request.runNumberList == runs
    modifies set h | h in connections :: connections[h].shell
    ensures HostsValid(connections) && Mirrors(connections, after)
    ensures next.stage == stage && next.runNumberList == runs
    ensures extended <= RemoteDispatches(stage, preferred, bigDisks, runs) && resume == base + |extended|
    ensures halt.None? ==> extended == RemoteDispatches(stage, preferred, bigDisks, runs)[..i + 1]
    ensures Execute(codec, plan, base, s0) ==
            if halt.None? then Execute(codec, plan, resume, after)
            else Exec(resume, after, halt)
    ensures WrittenSince(codec, s0, after, extended)
  {
    ghost var all := RemoteDispatches(stage, preferred, bigDisks, runs);
    InPlanAt(plan, base, all, i, at);
    var done;
    next, done, halt, after, resume :=
      SubmitNext(codec, preferred[i], bigDisks, request, connections, plan, at, shells);
    WrittenMore(codec, s0, shells, after, sent, done);
    TakeNext(all, i);
    extended := sent + done;
  }

  /** One turn of that loop, on host `computer`: the request takes the
      host's override; a host without a connection stops the loop with
      "host not found!" and sends nothing, otherwise the request is
      submitted and a reply that is a panic stops the loop.  shells and
      after are the connected hosts' shells before and after the turn. */
  method SubmitNext(codec: Json, computer: string, bigDisks: Option<map<string, string>>, request: Request,
                    connections: map<string, Host>, ghost plan: seq<Dispatch>, ghost at: nat,
                    ghost shells: map<string, OpenShell>)
    returns (next: Request, done: seq<Dispatch>, halt: Option<string>,
             ghost after: map<string, OpenShell>, ghost resume: nat)
    requires HostsValid(connections) && Mirrors(connections, shells)
    requires at < |plan| && plan[at] == Remote(computer, request.(bigDisk := Override(bigDisks, computer)))
    modifies set h | h in connections :: connections[h].shell
    ensures HostsValid(connections) && Mirrors(connections, after)
    ensures next == request.(bigDisk := Override(bigDisks, computer))
    ensures done == if computer in connections then [plan[at]] else []
    ensures computer !in connections ==> halt == Some(HostNotFound)
    ensures resume == at + |done|
    ensures Execute(codec, plan, at, shells) ==
            if halt.None? then Execute(codec, plan, resume, after)
            else Exec(resume, after, halt)
    ensures WrittenSince(codec, shells, after, done)
  {
    next := request.(bigDisk := Override(bigDisks, computer));
    if computer !in connections {
      ExecuteStep(codec, plan, at, shells);
      done, halt, after, resume := [], Some(HostNotFound), shells, at;
      WrittenNone(codec, shells);
      return;
    }
    var reply;
    reply, after := SubmitTo(codec, computer, next, connections, plan, at, shells);
    done, resume := [Remote(computer, next)], at + 1;
    halt := if reply.Panic? then Some(reply.message) else None;
    WrittenOne(codec, shells, after, Remote(computer, next));
  }

  /** `host.submit_request(&request)` on the host's own shell, as dispatch
      j of the plan: shells and next are the connected hosts' shells before
      and after.  Only that host's shell takes the command. */
  method SubmitTo(codec: Json, computer: string, request: Request, connections: map<string, Host>,
                  ghost plan: seq<Dispatch>, ghost j: nat, ghost shells: map<string, OpenShell>)
    returns (reply: Outcome<Response>, ghost next: map<string, OpenShell>)
    requires HostsValid(connections) && Mirrors(connections, shells) && computer in connections
    requires j < |plan| && plan[j] == Remote(computer, request)
    modifies set h | h in connections :: connections[h].shell
    ensures HostsValid(connections) && Mirrors(connections, next)
    ensures (next[computer], reply) == Submit(codec, shells[computer], request)
    ensures forall h :: h in shells && h != computer ==> h in next && next[h] == shells[h]
    ensures Execute(codec, plan, j, shells) ==
            if reply.Panic? then Exec(j + 1, next, Some(reply.message)) else Execute(codec, plan, j + 1, next)
    ensures forall h :: h in next <==> h in shells
    ensures forall h :: h in shells ==>
      next[h].written == shells[h].written + CommandFor(codec, Remote(computer, request), h)
  {
    var host := connections[computer];
    reply := host.SubmitRequest(request, codec);
    next := shells[computer := Submit(codec, shells[computer], request).0];
    ExecuteStep(codec, plan, j, shells);
  }

  /** One stage's checks under the accumulated list: a local `server` run
      if the list is empty, else a request to each listed host. */
  method DispatchStage(codec: Json, stage: Stage, runs: seq<string>, preferred: seq<string>,
                       bigDisks: Option<map<string, string>>, connections: map<string, Host>,
                       ghost plan: seq<Dispatch>, ghost base: nat, ghost s0: map<string, OpenShell>)
    returns (sent: seq<Dispatch>, halt: Option<string>, ghost shells: map<string, OpenShell>, ghost at: nat)
    requires HostsValid(connections) && Mirrors(connections, s0)
    requires InPlan(plan, base, StageDispatches(codec, stage, preferred, bigDisks, runs))
    modifies set h | h in connections :: connections[h].shell
    ensures HostsValid(connections) && Mirrors(connections, shells)
    ensures sent <= StageDispatches(codec, stage, preferred, bigDisks, runs)
    ensures halt.None? ==> sent == StageDispatches(codec, stage, preferred, bigDisks, runs)
    ensures at == base + |sent|
    ensures Execute(codec, plan, base, s0) ==
            if halt.None? then Execute(codec, plan, at, shells)
            else Exec(at, shells, halt)
    ensures WrittenSince(codec, s0, shells, sent)
  {
    var request := Request(stage, None, runs);
    if preferred == [] {
      // a local check
      sent, halt, shells, at := [Local(LocalArgs(codec, request), request)], None, s0, base + 1;
      InPlanAt(plan, base, sent, 0, base);
      ExecuteLocal(codec, plan, base, at, s0);
      WrittenLocal(codec, s0, sent[0]);
    } else {
      // a remote check on every preferred computer
      sent, halt, shells, at := SubmitToEach(codec, stage, runs, preferred, bigDisks, connections, plan, base, s0);
    }
  }

  /** Where the stage loop stands before stage s: it has sent trace, the
      plan's first at dispatches; the rest of the plan is the dispatches of
      stages s and later; and executing the plan from position at on the
      current shells ends as executing it from the start on s0 does. */
  ghost predicate Resumes(codec: Json, pipe: Pipe, runs: seq<string>, bigDisks: Option<map<string, string>>,
                          plan: seq<Dispatch>, s0: map<string, OpenShell>,
                          s: nat, at: nat, trace: seq<Dispatch>, shells: map<string, OpenShell>)
  {
    s <= |pipe.stages| && at <= |plan| && plan[..at] == trace &&
    InPlan(plan, at, PlanFrom(codec, pipe, bigDisks, runs, s)) &&
    at + |PlanFrom(codec, pipe, bigDisks, runs, s)| == |plan| &&
    Execute(codec, plan, 0, s0) == Execute(codec, plan, at, shells)
  }

  lemma ResumesStart(codec: Json, pipe: Pipe, runs: seq<string>, bigDisks: Option<map<string, string>>,
                     plan: seq<Dispatch>, s0: map<string, OpenShell>)
    requires plan == Plan(codec, pipe, bigDisks, runs)
    ensures Resumes(codec, pipe, runs, bigDisks, plan, s0, 0, 0, [], s0)
  {
    InPlanSuffix(plan, 0);
    assert plan[0..] == plan;
  }

  lemma ResumesEnd(codec: Json, pipe: Pipe, runs: seq<string>, bigDisks: Option<map<string, string>>,
                   plan: seq<Dispatch>, s0: map<string, OpenShell>,
                   at: nat, trace: seq<Dispatch>, shells: map<string, OpenShell>)
    requires Resumes(codec, pipe, runs, bigDisks, plan, s0, |pipe.stages|, at, trace, shells)
    ensures at <= |plan| && trace == plan[..at]
    ensures Execute(codec, plan, 0, s0) == Exec(at, shells, None)
  {
    ExecuteEnd(codec, plan, at, shells);
  }

  /** The stage loop of `run_client`.  One preference list is kept for the
      whole run and extended by each stage's list.  The loop performs a
      prefix of the plan and stops where Execute stops: at a listed host
      without a connection or at a reply that does not deserialize. */
  method StageLoop(codec: Json, pipe: Pipe, runs: seq<string>, bigDisks: Option<map<string, string>>,
                   connections: map<string, Host>, ghost plan: seq<Dispatch>, ghost s0: map<string, OpenShell>)
    returns (trace: seq<Dispatch>, halt: Option<string>, ghost shells: map<string, OpenShell>, ghost at: nat)
    requires Resumes(codec, pipe, runs, bigDisks, plan, s0, 0, 0, [], s0)
    requires HostsValid(connections) && Mirrors(connections, s0)
    modifies set h | h in connections :: connections[h].shell
    ensures HostsValid(connections) && Mirrors(connections, shells)
    ensures at <= |plan| && trace == plan[..at]
    ensures Execute(codec, plan, 0, s0) == Exec(at, shells, halt)
  {
    shells, at := s0, 0;
    var preferredComputers := ListOrEmpty(pipe.preferredComputer);
    trace := [];
    for s := 0 to |pipe.stages|
      invariant HostsValid(connections) && Mirrors(connections, shells)
      invariant preferredComputers == PreferredBefore(pipe, s)
      invariant Resumes(codec, pipe, runs, bigDisks, plan, s0, s, at, trace, shells)
    {
      var sent;
      ghost var next;
      preferredComputers, sent, halt, shells, next :=
        RunStage(codec, pipe, runs, bigDisks, connections, s, preferredComputers, plan, s0, at, trace, shells);
      trace, at := trace + sent, next;
      if halt.Some? {
        return;
      }
    }
    ResumesEnd(codec, pipe, runs, bigDisks, plan, s0, at, trace, shells);
    halt := None;
  }

  /** One turn of the stage loop: stage s extends the preference list and
      is checked locally, or on every listed host, from position at of the
      plan on. */
  method RunStage(codec: Json, pipe: Pipe, runs: seq<string>, bigDisks: Option<map<string, string>>,
                  connections: map<string, Host>, s: nat, preferred: seq<string>, ghost plan: seq<Dispatch>,
                  ghost s0: map<string, OpenShell>, ghost at: nat, ghost trace: seq<Dispatch>,
                  ghost shells: map<string, OpenShell>)
    returns (extended: seq<string>, sent: seq<Dispatch>, halt: Option<string>,
             ghost after: map<string, OpenShell>, ghost next: nat)
    requires s < |pipe.stages| && preferred == PreferredBefore(pipe, s)
    requires HostsValid(connections) && Mirrors(connections, shells)
    requires Resumes(codec, pipe, runs, bigDisks, plan, s0, s, at, trace, shells)
    modifies set h | h in connections :: connections[h].shell
    ensures extended == PreferredBefore(pipe, s + 1)
    ensures HostsValid(connections) && Mirrors(connections, after)
    ensures halt.None? ==> Resumes(codec, pipe, runs, bigDisks, plan, s0, s + 1, next, trace + sent, after)
    ensures halt.Some? ==>
      next <= |plan| && trace + sent == plan[..next] && Execute(codec, plan, 0, s0) == Exec(next, after, halt)
  {
    var stage := pipe.stages[s];

    // append to the preferred computers
    extended := AppendPreferences(preferred, stage);
    PlanStep(codec, pipe, bigDisks, runs, s);
    ghost var all := StageDispatches(codec, stage, extended, bigDisks, runs);
    ghost var rest := PlanFrom(codec, pipe, bigDisks, runs, s + 1);
    InPlanSplit(plan, at, all, rest);
    sent, halt, after, next := DispatchStage(codec, stage, runs, extended, bigDisks, connections, plan, at, shells);
    AdvanceInPlan(plan, at, trace, all, rest, sent, next);
  }

  /** `run_client`'s stages, run to the end or to the panic that stops
      them.  s0 holds the connected hosts' shells before. */
  method RunStages(codec: Json, pipe: Pipe, runs: seq<string>, bigDisks: Option<map<string, string>>,
                   connections: map<string, Host>, ghost s0: map<string, OpenShell>) returns (run: Run)
    requires HostsValid(connections) && Mirrors(connections, s0)
    modifies set h | h in connections :: connections[h].shell
    ensures HostsValid(connections)
    ensures var plan := Plan(codec, pipe, bigDisks, runs);
      var e := Execute(codec, plan, 0, s0);
      Mirrors(connections, e.shells) && run == RunOf(plan, e)
    ensures forall h :: h in connections ==>
      connections[h].shell.written == old(connections[h].shell.written) + CommandsTo(codec, run.trace, h)
    ensures var plan := Plan(codec, pipe, bigDisks, runs);
      run.trace <= plan && AllConnected(run.trace, connections.Keys) &&
      (run.Panicked? && run.message == HostNotFound ==>
         |run.trace| < |plan| && plan[|run.trace|].Remote? && plan[|run.trace|].host !in connections) &&
      (!AllConnected(plan, connections.Keys) ==> run.Panicked? && run.trace < plan) &&
      (AllConnected(plan, connections.Keys) ==> run.Completed? || run.message == Undecodable)
  {
    ghost var plan := Plan(codec, pipe, bigDisks, runs);
    var trace, halt;
    ghost var shells, at;
    ResumesStart(codec, pipe, runs, bigDisks, plan, s0);
    trace, halt, shells, at := StageLoop(codec, pipe, runs, bigDisks, connections, plan, s0);
    if halt.Some? {
      run := Panicked(trace, halt.value);
    } else {
      run := Completed(trace);
    }
    Conclude(codec, plan, s0, run, connections);
  }

  /** RunFacts read back on the connected hosts' shells. */
  lemma Conclude(codec: Json, plan: seq<Dispatch>, s0: map<string, OpenShell>, run: Run,
                 connections: map<string, Host>)
    requires forall h :: h in s0 <==> h in connections
    requires var e := Execute(codec, plan, 0, s0);
      Mirrors(connections, e.shells) && run == RunOf(plan, e)
    ensures forall h :: h in connections ==>
      connections[h].shell.written == s0[h].written + CommandsTo(codec, run.trace, h)
    ensures run.trace <= plan && AllConnected(run.trace, connections.Keys) &&
      (run.Panicked? && run.message == HostNotFound ==>
         |run.trace| < |plan| && plan[|run.trace|].Remote? && plan[|run.trace|].host !in connections) &&
      (!AllConnected(plan, connections.Keys) ==> run.Panicked? && run.trace < plan) &&
      (AllConnected(plan, connections.Keys) ==> run.Completed? || run.message == Undecodable)
  {
    RunFacts(codec, plan, s0);
  }

  lemma TakeNext<T>(s: seq<T>, i: nat)
    requires i < |s|
    ensures s[..i + 1] == s[..i] + [s[i]]
  {
  }

  lemma AppendAssociates<T>(a: seq<T>, b: seq<T>, c: seq<T>)
    ensures (a + b) + c == a + (b + c)
  {
  }

  /** The plan from stage s is stage s's dispatches, under its preference
      list, followed by the plan from stage s + 1. */
  lemma PlanStep(codec: Json, pipe: Pipe, bigDisks: Option<map<string, string>>, runs: seq<string>, s: int)
    requires 0 <= s < |pipe.stages|
    ensures PlanFrom(codec, pipe, bigDisks, runs, s) ==
            StageDispatches(codec, pipe.stages[s], PreferredAt(pipe, s), bigDisks, runs) +
            PlanFrom(codec, pipe, bigDisks, runs, s + 1)
  {
  }

  /** The big-disk map `run_client` dispatches with: none without the
      option, else the parsed entries. */
  function DisksOf(bigDisk: Option<seq<string>>): Option<map<string, string>>
    requires bigDisk.Some? ==> forall a :: a in bigDisk.value ==> IsEntry(a)
  {
    if bigDisk.None? then None else Some(OverrideMap(bigDisk.value))
  }

  /** `run_client` after setup: the option is parsed first (a bad entry
      panics before any check starts), then the stages are dispatched.
      s0 holds the connected hosts' shells before. */
  method RunClient(codec: Json, pipe: Pipe, runs: seq<string>, bigDisk: Option<seq<string>>,
                   connections: map<string, Host>, ghost s0: map<string, OpenShell>) returns (run: Run)
    requires HostsValid(connections) && Mirrors(connections, s0)
    modifies set h | h in connections :: connections[h].shell
    ensures HostsValid(connections)
    ensures bigDisk.Some? && !(forall a :: a in bigDisk.value ==> IsEntry(a)) ==>
            run == Panicked([], "BIGGUS_DISKUS must contain a : for") && Mirrors(connections, s0)
    ensures bigDisk.None? || (forall a :: a in bigDisk.value ==> IsEntry(a)) ==>
            var plan := Plan(codec, pipe, DisksOf(bigDisk), runs);
            var e := Execute(codec, plan, 0, s0);
            Mirrors(connections, e.shells) && run == RunOf(plan, e) &&
            run.trace <= plan &&
            (run.Panicked? && run.message == HostNotFound ==>
               |run.trace| < |plan| && plan[|run.trace|].Remote? && plan[|run.trace|].host !in connections) &&
            (!AllConnected(plan, connections.Keys) ==> run.Panicked? && run.trace < plan) &&
            (AllConnected(plan, connections.Keys) ==> run.Completed? || run.message == Undecodable)
    ensures AllConnected(run.trace, connections.Keys)
    ensures forall h :: h in connections ==>
      connections[h].shell.written == old(connections[h].shell.written) + CommandsTo(codec, run.trace, h)
  {
    var bigDisks := ParseBigDisks(bigDisk);
    match bigDisks
    case Panic(message) =>
      run := Panicked([], message);
    case Done(disks) =>
      run := RunStages(codec, pipe, runs, disks, connections, s0);
  }
}
