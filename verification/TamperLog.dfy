/** The signed audit log: a bounded memory that mirrors the end of an append-only file, over any number of
    restarts, and the audit report computed from it. */
module TamperLog {
  import opened Text
  import opened Recent
  import opened Sorting

  /** The fields of an entry that the report reads; `rest` stands for all others. */
  datatype Fields = Fields(cn: string, ip: string, action: string, severity: string, tampering: bool, denied: bool,
                           rest: string)

  datatype Entry = Entry(fields: Fields, signature: string)

  /** A line of the file: an entry, or something that is none. */
  datatype Line = Good(entry: Entry) | Junk

  function Signed(sign: Fields -> string, f: Fields): Entry {
    Entry(f, sign(f))
  }

  /** The signature is computed again from the fields and compared. */
  predicate Verified(sign: Fields -> string, e: Entry) {
    e.signature == sign(e.fields)
  }

  /** With an injective signature an altered entry never verifies under the old signature. */
  lemma AlteredFails(sign: Fields -> string, f: Fields, g: Fields)
    requires forall a, b :: sign(a) == sign(b) ==> a == b
    ensures Verified(sign, Signed(sign, f).(fields := g)) <==> g == f
  {
  }

  function Entries(file: seq<Line>): seq<Entry> {
    if file == [] then []
    else
      var past, line := Entries(file[..|file| - 1]), file[|file| - 1];
      if line.Good? then past + [line.entry] else past
  }

  /** What a starting logger reads: the entries among the last `max` lines. */
  function Loaded(file: seq<Line>, max: nat): seq<Entry> {
    Entries(LastN(file, max))
  }

  datatype Step = Log(fields: Fields, writes: bool) | Restart | Clear

  datatype State = State(logs: seq<Entry>, file: seq<Line>)

  function Next(sign: Fields -> string, max: nat, s: State, step: Step): State {
    match step
    case Log(f, writes) =>
      State(Appended(s.logs, Signed(sign, f), max), if writes then s.file + [Good(Signed(sign, f))] else s.file)
    case Restart => State(Loaded(s.file, max), s.file)
    case Clear => State([], s.file)
  }

  function Run(sign: Fields -> string, max: nat, file: seq<Line>, steps: seq<Step>): State {
    if steps == [] then State(Loaded(file, max), file)
    else Next(sign, max, Run(sign, max, file, steps[..|steps| - 1]), steps[|steps| - 1])
  }

  lemma {:induction false} EntriesAppend(a: seq<Line>, b: seq<Line>)
    ensures Entries(a + b) == Entries(a) + Entries(b)
    ensures |Entries(b)| <= |b|
    decreases |b|
  {
    if b == [] {
      assert a + b == a && Entries(a) + [] == Entries(a);
    } else {
      var n := |b| - 1;
      assert (a + b)[..|a + b| - 1] == a + b[..n];
      EntriesAppend(a, b[..n]);
    }
  }

  /** What a step writes to the file, and what it leaves in the memory. */
  lemma StepIs(sign: Fields -> string, max: nat, s: State, f: Fields)
    ensures Next(sign, max, s, Log(f, true)).file == s.file + [Good(Entry(f, sign(f)))]
    ensures Next(sign, max, s, Log(f, false)).file == s.file
    ensures Next(sign, max, s, Restart).file == s.file && Next(sign, max, s, Clear).file == s.file
    ensures Next(sign, max, s, Clear).logs == []
    ensures forall writes ::
              var logs := Next(sign, max, s, Log(f, writes)).logs;
              && (max == 0 ==> logs == [])
              && (|s.logs| < max ==> logs == s.logs + [Entry(f, sign(f))])
              && (|s.logs| == max > 0 ==> logs == s.logs[1..] + [Entry(f, sign(f))])
  {
  }

  function Writes(s: Step): bool {
    s.Log? && s.writes
  }

  /** The file is what a run began with and, in order, every entry it logged and could write, signed. */
  lemma {:induction false} FileIs(sign: Fields -> string, max: nat, file: seq<Line>, steps: seq<Step>)
    ensures var s := Run(sign, max, file, steps);
            && |s.file| == |file| + |Where(steps, Writes)| && file <= s.file
            && forall i :: 0 <= i < |steps| && steps[i].Log? && steps[i].writes ==>
                 var f := steps[i].fields;
                 LineAt(s.file, |file| + |Where(steps[..i], Writes)|, Good(Entry(f, sign(f))))
  {
    hide Where, Loaded, Appended;
    if steps == [] {
      WhereGrows([], Restart, Writes);
    } else {
      var n := |steps| - 1;
      var past := steps[..n];
      var s, t := Run(sign, max, file, past), Run(sign, max, file, steps);
      assert steps == past + [steps[n]];
      FileIs(sign, max, file, past);
      WhereGrows(past, steps[n], Writes);
      forall i | 0 <= i < |steps| && steps[i].Log? && steps[i].writes
        ensures var f := steps[i].fields;
                LineAt(t.file, |file| + |Where(steps[..i], Writes)|, Good(Entry(f, sign(f))))
      {
        assert i < n ==> past[..i] == steps[..i] && past[i] == steps[i];
      }
    }
  }

  predicate LineAt(file: seq<Line>, k: nat, line: Line) {
    k < |file| && file[k] == line
  }

  predicate NoJunk(file: seq<Line>) {
    forall i :: 0 <= i < |file| ==> file[i].Good?
  }

  lemma {:induction false} JunkShortens(file: seq<Line>)
    ensures |Entries(file)| == |file| <==> NoJunk(file)
    ensures |Entries(file)| <= |file|
  {
    if file != [] {
      JunkShortens(file[..|file| - 1]);
    }
  }

  /** A restart restores the last `max` entries of the file exactly when no line among the last `max` is
      junk, or there is no entry before them. */
  lemma RestartMirrorsIff(file: seq<Line>, max: nat)
    ensures Loaded(file, max) == LastN(Entries(file), max)
       <==> NoJunk(LastN(file, max)) || Entries(file[..|file| - |LastN(file, max)|]) == []
  {
    hide Entries, NoJunk;
    var tail := LastN(file, max);
    var front := file[..|file| - |tail|];
    assert file == front + tail;
    EntriesAppend(front, tail);
    JunkShortens(tail);
    var a, b := Entries(front), Entries(tail);
    if |a| + |b| > max {
      LastNFits(a + b, max);
      if |b| == max {
        assert LastN(a + b, max) == b;
      }
    } else {
      assert LastN(a + b, max) == a + b;
      if a == [] {
        assert a + b == b;
      }
      if |file| <= max {
        assert front == [];
        NoEntries();
      }
    }
  }

  /** For instance: an entry behind which a line is damaged is forgotten by a logger that keeps one. */
  lemma RestartForgets(e: Entry)
    ensures Loaded([Good(e), Junk], 1) == [] && LastN(Entries([Good(e), Junk]), 1) == [e]
  {
    assert [Good(e)] + [Junk] == [Good(e), Junk];
    EntriesAppend([Good(e)], [Junk]);
    OneEntry(e);
    OneJunk([]);
    OneJunk([e]);
    assert LastN([Good(e), Junk], 1) == [Junk];
  }

  lemma NoEntries()
    ensures Entries([]) == []
  {
  }

  /** No write failed and nothing was cleared. */
  predicate Faithful(steps: seq<Step>) {
    forall i :: 0 <= i < |steps| ==> steps[i].Restart? || (steps[i].Log? && steps[i].writes)
  }

  ghost predicate Mirrors(sign: Fields -> string, max: nat, s: State) {
    && s.logs == LastN(Entries(s.file), max) && NoJunk(s.file)
    && forall i :: 0 <= i < |s.file| && s.file[i].Good? ==> Verified(sign, s.file[i].entry)
  }

  lemma NextMirrors(sign: Fields -> string, max: nat, s: State, step: Step)
    requires Mirrors(sign, max, s) && (step.Restart? || (step.Log? && step.writes))
    ensures Mirrors(sign, max, Next(sign, max, s, step))
  {
    hide Entries, LastN, Appended;
    match step {
      case Log(f, _) =>
        var e := Signed(sign, f);
        EntriesAppend(s.file, [Good(e)]);
        assert Entries([Good(e)]) == [e] by { OneEntry(e); }
        AppendedIsLast(Entries(s.file), e, max);
      case Restart =>
        RestartMirrorsIff(s.file, max);
        TailClean(s.file, max);
    }
  }

  lemma OneEntry(e: Entry)
    ensures Entries([Good(e)]) == [e]
  {
    assert [Good(e)][..0] == [];
  }

  lemma TailClean(file: seq<Line>, max: nat)
    requires NoJunk(file)
    ensures NoJunk(LastN(file, max))
  {
  }

  /** Starting on an empty file, over any number of entries and restarts, the memory is the end of the
      file, the file holds no junk, and every entry in it verifies. */
  lemma {:induction false} AlwaysMirrors(sign: Fields -> string, max: nat, steps: seq<Step>)
    requires Faithful(steps)
    ensures Mirrors(sign, max, Run(sign, max, [], steps))
  {
    hide Mirrors, Next, Loaded;
    if steps == [] {
      assert Mirrors(sign, max, State(Loaded([], max), [])) by { EmptyMirrors(sign, max); }
    } else {
      var n := |steps| - 1;
      AlwaysMirrors(sign, max, steps[..n]);
      NextMirrors(sign, max, Run(sign, max, [], steps[..n]), steps[n]);
    }
  }

  lemma EmptyMirrors(sign: Fields -> string, max: nat)
    ensures Mirrors(sign, max, State(Loaded([], max), []))
  {
    assert LastN<Line>([], max) == [] && LastN<Entry>([], max) == [];
  }

  lemma {:induction false} EntriesVerified(sign: Fields -> string, file: seq<Line>)
    requires forall i :: 0 <= i < |file| && file[i].Good? ==> Verified(sign, file[i].entry)
    ensures forall i :: 0 <= i < |Entries(file)| ==> Verified(sign, Entries(file)[i])
  {
    hide Verified;
    if file != [] {
      EntriesVerified(sign, file[..|file| - 1]);
    }
  }

  /** So no report over the memory or the file, after any such run, counts an entry that fails. */
  lemma NothingFails(sign: Fields -> string, max: nat, steps: seq<Step>)
    requires Faithful(steps)
    ensures var s := Run(sign, max, [], steps);
            Failing(sign, s.logs) == 0 && Failing(sign, Entries(s.file)) == 0
  {
    hide Entries, Verified, Failing, Run, LastN;
    AlwaysMirrors(sign, max, steps);
    var s := Run(sign, max, [], steps);
    EntriesVerified(sign, s.file);
    NoneFailing(sign, Entries(s.file));
    LastNWithin(Entries(s.file), max);
    NoneFailing(sign, s.logs);
  }

  lemma LastNWithin<T>(s: seq<T>, n: nat)
    ensures |LastN(s, n)| <= |s|
    ensures forall i :: 0 <= i < |LastN(s, n)| ==> LastN(s, n)[i] == s[|s| - |LastN(s, n)| + i]
  {
  }

  function Failing(sign: Fields -> string, logs: seq<Entry>): nat {
    if logs == [] then 0
    else Failing(sign, logs[..|logs| - 1]) + if Verified(sign, logs[|logs| - 1]) then 0 else 1
  }

  lemma {:induction false} NoneFailing(sign: Fields -> string, logs: seq<Entry>)
    requires forall i :: 0 <= i < |logs| ==> Verified(sign, logs[i])
    ensures Failing(sign, logs) == 0
  {
    hide Verified;
    if logs != [] {
      NoneFailing(sign, logs[..|logs| - 1]);
    }
  }

  // ---- The report ------------------------------------------------------------------------------------------

  function UserKey(e: Entry): string {
    if e.fields.cn != "" then e.fields.cn else if e.fields.ip != "" then e.fields.ip else "unknown"
  }

  /** One text for each entry: its user, its action or its severity. */
  function Keys(logs: seq<Entry>, key: Entry -> string): seq<string> {
    seq(|logs|, i requires 0 <= i < |logs| => key(logs[i]))
  }

  function Count(keys: seq<string>, k: string): nat {
    if keys == [] then 0 else Count(keys[..|keys| - 1], k) + if keys[|keys| - 1] == k then 1 else 0
  }

  /** A tally: every key that occurs, with how often it does. */
  ghost predicate Tallies(m: map<string, nat>, keys: seq<string>) {
    && (forall k :: k in m <==> k in keys)
    && (forall k :: k in m ==> m[k] == Count(keys, k))
  }

  function Bumped(m: map<string, nat>, k: string): map<string, nat> {
    m[k := (if k in m then m[k] else 0) + 1]
  }

  lemma {:induction false} CountAbsent(keys: seq<string>, k: string)
    ensures Count(keys, k) > 0 <==> k in keys
  {
    if keys != [] {
      var n := |keys| - 1;
      CountAbsent(keys[..n], k);
      assert keys == keys[..n] + [keys[n]];
    }
  }

  lemma TalliesGrow(m: map<string, nat>, keys: seq<string>, k: string)
    requires Tallies(m, keys)
    ensures Tallies(Bumped(m, k), keys + [k])
  {
    assert (keys + [k])[..|keys|] == keys;
    CountAbsent(keys, k);
  }

  ghost function Sum(m: map<string, nat>): nat
    decreases m.Keys
  {
    if m.Keys == {} then 0
    else
      var k :| k in m;
      m[k] + Sum(m - {k})
  }

  lemma {:induction false} SumPick(m: map<string, nat>, k: string)
    requires k in m
    ensures Sum(m) == m[k] + Sum(m - {k})
    decreases m.Keys
  {
    var j :| j in m && Sum(m) == m[j] + Sum(m - {j});
    if j != k {
      SumPick(m - {j}, k);
      SumPick(m - {k}, j);
      assert m - {j} - {k} == m - {k} - {j};
    }
  }

  lemma SumBumped(m: map<string, nat>, k: string)
    ensures Sum(Bumped(m, k)) == Sum(m) + 1
  {
    var more := Bumped(m, k);
    SumPick(more, k);
    if k in m {
      SumPick(m, k);
      assert more - {k} == m - {k};
    } else {
      assert more - {k} == m;
    }
  }

  /** A tally sums to the number of entries: none is lost and none counted twice. */
  lemma {:induction false} TallySums(m: map<string, nat>, keys: seq<string>)
    requires Tallies(m, keys)
    ensures Sum(m) == |keys|
  {
    if keys == [] {
      assert m.Keys == {};
    } else {
      var n := |keys| - 1;
      var past := map k | k in keys[..n] :: Count(keys[..n], k);
      assert Tallies(past, keys[..n]);
      TallySums(past, keys[..n]);
      TalliesGrow(past, keys[..n], keys[n]);
      SumBumped(past, keys[n]);
      assert keys[..n] + [keys[n]] == keys;
      assert Bumped(past, keys[n]) == m by { TalliesAgree(Bumped(past, keys[n]), m, keys); }
    }
  }

  lemma TalliesAgree(a: map<string, nat>, b: map<string, nat>, keys: seq<string>)
    requires Tallies(a, keys) && Tallies(b, keys)
    ensures a == b
  {
    assert a.Keys == b.Keys;
  }

  function Critical(logs: seq<Entry>): seq<Entry> {
    if logs == [] then []
    else
      var past, e := Critical(logs[..|logs| - 1]), logs[|logs| - 1];
      if e.fields.severity == "critical" then past + [e] else past
  }

  function CountWhere(logs: seq<Entry>, p: Entry -> bool): nat {
    if logs == [] then 0 else CountWhere(logs[..|logs| - 1], p) + if p(logs[|logs| - 1]) then 1 else 0
  }

  datatype Report = Report(total: nat, tampering: nat, denials: nat, byUser: map<string, nat>,
                           byAction: map<string, nat>, bySeverity: map<string, nat>, verified: nat, failed: nat,
                           critical: seq<Entry>)

  const BY_ACTION: Entry -> string := (e: Entry) => e.fields.action
  const BY_SEVERITY: Entry -> string := (e: Entry) => e.fields.severity
  const BY_USER: Entry -> string := (e: Entry) => UserKey(e)

  const IS_TAMPERING: Entry -> bool := (e: Entry) => e.fields.tampering
  const IS_DENIAL: Entry -> bool := (e: Entry) => e.fields.denied

  /** What the report says of the entries it was made from. */
  ghost predicate Reports(sign: Fields -> string, logs: seq<Entry>, r: Report) {
    && Tallies(r.byUser, Keys(logs, BY_USER)) && Tallies(r.byAction, Keys(logs, BY_ACTION))
    && Tallies(r.bySeverity, Keys(logs, BY_SEVERITY))
    && r.failed == Failing(sign, logs) && r.verified + r.failed == |logs|
    && r.tampering == CountWhere(logs, IS_TAMPERING) && r.denials == CountWhere(logs, IS_DENIAL)
    && r.total == |logs| && r.critical == LastN(Critical(logs), 10)
  }

  /** Each of its tallies sums to the total. */
  lemma ReportSums(sign: Fields -> string, logs: seq<Entry>, r: Report)
    requires Reports(sign, logs, r)
    ensures Sum(r.byUser) == |logs| && Sum(r.byAction) == |logs| && Sum(r.bySeverity) == |logs|
  {
    hide Tallies, Sum;
    TallySums(r.byUser, Keys(logs, BY_USER));
    TallySums(r.byAction, Keys(logs, BY_ACTION));
    TallySums(r.bySeverity, Keys(logs, BY_SEVERITY));
  }

  lemma KeysGrow(logs: seq<Entry>, e: Entry, key: Entry -> string)
    ensures Keys(logs + [e], key) == Keys(logs, key) + [key(e)]
  {
  }

  /** The report before its list of critical events is cut. */
  ghost predicate Gathered(sign: Fields -> string, logs: seq<Entry>, r: Report) {
    && Tallies(r.byUser, Keys(logs, BY_USER)) && Tallies(r.byAction, Keys(logs, BY_ACTION))
    && Tallies(r.bySeverity, Keys(logs, BY_SEVERITY))
    && r.failed == Failing(sign, logs) && r.verified + r.failed == |logs|
    && r.tampering == CountWhere(logs, IS_TAMPERING) && r.denials == CountWhere(logs, IS_DENIAL)
    && r.critical == Critical(logs)
  }

  lemma {:induction false} CountWhereIs(logs: seq<Entry>, p: Entry -> bool)
    ensures CountWhere(logs, p) == |Where(logs, p)|
  {
    hide Where;
    if logs == [] {
      WhereGrows([], Entry(Fields("", "", "", "", false, false, ""), ""), p);
    } else {
      var n := |logs| - 1;
      assert logs == logs[..n] + [logs[n]];
      CountWhereIs(logs[..n], p);
      WhereGrows(logs[..n], logs[n], p);
    }
  }

  lemma {:induction false} FailingIs(sign: Fields -> string, logs: seq<Entry>, p: Entry -> bool)
    requires forall e :: p(e) <==> e.signature != sign(e.fields)
    ensures Failing(sign, logs) == |Where(logs, p)|
  {
    hide Where;
    if logs == [] {
      WhereGrows([], Entry(Fields("", "", "", "", false, false, ""), ""), p);
    } else {
      var n := |logs| - 1;
      assert logs == logs[..n] + [logs[n]];
      FailingIs(sign, logs[..n], p);
      WhereGrows(logs[..n], logs[n], p);
    }
  }

  lemma {:induction false} CountIs(logs: seq<Entry>, key: Entry -> string, k: string, p: Entry -> bool)
    requires forall e :: p(e) <==> key(e) == k
    ensures Count(Keys(logs, key), k) == |Where(logs, p)|
  {
    hide Where, Keys;
    if logs == [] {
      assert Keys([], key) == [] by { NoKeys(key); }
      WhereGrows([], Entry(Fields("", "", "", "", false, false, ""), ""), p);
    } else {
      var n := |logs| - 1;
      var past := Keys(logs[..n], key);
      assert logs == logs[..n] + [logs[n]];
      CountIs(logs[..n], key, k, p);
      WhereGrows(logs[..n], logs[n], p);
      KeysGrow(logs[..n], logs[n], key);
      assert (past + [key(logs[n])])[..|past|] == past;
    }
  }

  lemma NoKeys(key: Entry -> string)
    ensures Keys([], key) == []
  {
  }

  /** A tally gives every key that some entry has, with the number of the entries that have it. */
  lemma TallyIs(m: map<string, nat>, logs: seq<Entry>, key: Entry -> string, k: string)
    requires Tallies(m, Keys(logs, key))
    ensures k in m <==> exists i :: 0 <= i < |logs| && key(logs[i]) == k
    ensures k in m ==> m[k] == |set i: nat | i < |logs| && key(logs[i]) == k|
  {
    hide Count;
    var keys := Keys(logs, key);
    assert forall i :: 0 <= i < |logs| ==> keys[i] == key(logs[i]) && keys[i] in keys;
    var p := (e: Entry) => key(e) == k;
    CountIs(logs, key, k, p);
    assert Where(logs, p) == set i: nat | i < |logs| && key(logs[i]) == k;
  }

  /** Who an entry is about: the name of the certificate, else the address, else nobody known. */
  predicate IsUser(e: Entry, k: string) {
    if e.fields.cn != "" then k == e.fields.cn
    else if e.fields.ip != "" then k == e.fields.ip
    else k == "unknown"
  }

  /** What a report says: how many entries were tampering, were denied, and fail verification; and of every user,
      action and severity how many entries are theirs. */
  lemma ReportIs(sign: Fields -> string, logs: seq<Entry>, r: Report, k: string)
    requires Reports(sign, logs, r)
    ensures r.total == |logs| && r.verified + r.failed == |logs|
    ensures r.tampering == |set i: nat | i < |logs| && logs[i].fields.tampering|
    ensures r.denials == |set i: nat | i < |logs| && logs[i].fields.denied|
    ensures r.failed == |set i: nat | i < |logs| && logs[i].signature != sign(logs[i].fields)|
    ensures k in r.byUser <==> exists e :: e in logs && IsUser(e, k)
    ensures k in r.byUser ==> r.byUser[k] == |set i: nat | i < |logs| && IsUser(logs[i], k)|
    ensures k in r.byAction <==> exists e :: e in logs && e.fields.action == k
    ensures k in r.byAction ==> r.byAction[k] == |set i: nat | i < |logs| && logs[i].fields.action == k|
    ensures k in r.bySeverity <==> exists e :: e in logs && e.fields.severity == k
    ensures k in r.bySeverity ==> r.bySeverity[k] == |set i: nat | i < |logs| && logs[i].fields.severity == k|
  {
    hide Tallies, Failing, CountWhere, Critical, Keys;
    TallyIs(r.byUser, logs, BY_USER, k);
    TallyIs(r.byAction, logs, BY_ACTION, k);
    TallyIs(r.bySeverity, logs, BY_SEVERITY, k);
    TotalsAre(sign, logs, r);
    assert forall e :: BY_USER(e) == k <==> IsUser(e, k);
    assert (set i: nat | i < |logs| && BY_USER(logs[i]) == k) == set i: nat | i < |logs| && IsUser(logs[i], k);
    assert (set i: nat | i < |logs| && BY_ACTION(logs[i]) == k)
        == set i: nat | i < |logs| && logs[i].fields.action == k;
    assert (set i: nat | i < |logs| && BY_SEVERITY(logs[i]) == k)
        == set i: nat | i < |logs| && logs[i].fields.severity == k;
  }

  lemma TotalsAre(sign: Fields -> string, logs: seq<Entry>, r: Report)
    requires Reports(sign, logs, r)
    ensures r.tampering == |set i: nat | i < |logs| && logs[i].fields.tampering|
    ensures r.denials == |set i: nat | i < |logs| && logs[i].fields.denied|
    ensures r.failed == |set i: nat | i < |logs| && logs[i].signature != sign(logs[i].fields)|
  {
    hide Tallies, Failing, CountWhere, Critical, Keys;
    var fails := (e: Entry) => e.signature != sign(e.fields);
    CountWhereIs(logs, IS_TAMPERING);
    CountWhereIs(logs, IS_DENIAL);
    FailingIs(sign, logs, fails);
    assert Where(logs, IS_TAMPERING) == set i: nat | i < |logs| && logs[i].fields.tampering;
    assert Where(logs, IS_DENIAL) == set i: nat | i < |logs| && logs[i].fields.denied;
    assert Where(logs, fails) == set i: nat | i < |logs| && logs[i].signature != sign(logs[i].fields);
  }

  /** The critical entries are picked one by one, in order; the report keeps the last ten. */
  lemma {:induction false} CriticalIs(a: seq<Entry>, b: seq<Entry>, e: Entry)
    ensures Critical(a + b) == Critical(a) + Critical(b)
    ensures Critical([e]) == if e.fields.severity == "critical" then [e] else []
    decreases |b|
  {
    assert [e][..0] == [] && Critical([]) == [];
    if b == [] {
      assert a + b == a && Critical(a) + [] == Critical(a);
    } else {
      var n := |b| - 1;
      assert (a + b)[..|a + b| - 1] == a + b[..n];
      CriticalIs(a, b[..n], e);
    }
  }

  function Noted(r: Report, e: Entry, valid: bool): Report {
    Report(r.total,
           r.tampering + (if e.fields.tampering then 1 else 0),
           r.denials + (if e.fields.denied then 1 else 0),
           Bumped(r.byUser, UserKey(e)),
           Bumped(r.byAction, e.fields.action),
           Bumped(r.bySeverity, e.fields.severity),
           r.verified + (if valid then 1 else 0),
           r.failed + (if valid then 0 else 1),
           if e.fields.severity == "critical" then r.critical + [e] else r.critical)
  }

  lemma GatheredGrows(sign: Fields -> string, logs: seq<Entry>, r: Report, e: Entry, total: nat)
    requires Gathered(sign, logs, r)
    ensures Gathered(sign, logs + [e], Noted(r.(total := total), e, Verified(sign, e)))
  {
    hide Tallies, Bumped, UserKey, Verified;
    assert (logs + [e])[..|logs|] == logs;
    KeysGrow(logs, e, BY_USER);
    KeysGrow(logs, e, BY_ACTION);
    KeysGrow(logs, e, BY_SEVERITY);
    TalliesGrow(r.byUser, Keys(logs, BY_USER), UserKey(e));
    TalliesGrow(r.byAction, Keys(logs, BY_ACTION), e.fields.action);
    TalliesGrow(r.bySeverity, Keys(logs, BY_SEVERITY), e.fields.severity);
  }

  class TamperLogger {
    const max: nat
    const sign: Fields -> string
    var logs: seq<Entry>
    var file: seq<Line>

    /** A logger started on what an earlier one left. */
    constructor (sign: Fields -> string, max: nat, file: seq<Line>)
      ensures this.sign == sign && this.max == max && Now() == Run(sign, max, file, [])
    {
      this.sign, this.max, this.file := sign, max, file;
      new;
      var recent := if |file| > max then file[|file| - max..] else file;
      hide Appended, LastN, Entries;
      logs := [];
      NoEntries();
      LastNFits<Entry>([], max);
      for i := 0 to |recent|
        invariant logs == LastN(Entries(recent[..i]), max) && this.sign == sign && this.max == max && this.file == file
      {
        EntriesAppend(recent[..i], [recent[i]]);
        assert recent[..i + 1] == recent[..i] + [recent[i]];
        if recent[i].Good? {
          OneEntry(recent[i].entry);
          AppendedIsLast(Entries(recent[..i]), recent[i].entry, max);
          logs := Appended(logs, recent[i].entry, max);
        } else {
          OneJunk(Entries(recent[..i]));
        }
      }
      assert recent[..|recent|] == recent;
      LoadedFits(file, max, recent);
    }

    ghost function Now(): State
      reads this
    {
      State(logs, file)
    }

    /** Signs and keeps an entry, then writes it; a failed write is only printed. */
    method Record(f: Fields, writes: bool)
      modifies this
      ensures Now() == Next(sign, max, old(Now()), Log(f, writes))
    {
      hide Appended;
      var e := Signed(sign, f);
      logs := Appended(logs, e, max);
      if writes {
        file := file + [Good(e)];
      }
    }

    method Clear()
      modifies this
      ensures Now() == Next(sign, max, old(Now()), Step.Clear)
    {
      logs := [];
    }

    /** The audit report over the file, or over the memory. */
    method GenerateAuditReport(fromFile: bool) returns (r: Report)
      ensures Reports(sign, if fromFile then Entries(file) else this.logs, r)
    {
      var logs := if fromFile then Entries(file) else this.logs;
      hide Tallies, Bumped, UserKey, Verified, Failing, Critical, CountWhere, Gathered, Entries;
      r := Report(|logs|, 0, 0, map[], map[], map[], 0, 0, []);
      NothingGathered(sign, |logs|);
      for i := 0 to |logs|
        invariant Gathered(sign, logs[..i], r) && r.total == |logs|
      {
        var e := logs[i];
        assert logs[..i + 1] == logs[..i] + [e];
        GatheredGrows(sign, logs[..i], r, e, |logs|);
        var valid := Verified(sign, e);
        r := Noted(r, e, valid);
      }
      assert logs[..|logs|] == logs;
      GatheredMeans(sign, logs, r);
      r := r.(critical := if |r.critical| <= 10 then r.critical else r.critical[|r.critical| - 10..]);
    }
  }

  lemma GatheredMeans(sign: Fields -> string, logs: seq<Entry>, r: Report)
    requires Gathered(sign, logs, r) && r.total == |logs|
    ensures Reports(sign, logs,
                    r.(critical := if |r.critical| <= 10 then r.critical else r.critical[|r.critical| - 10..]))
  {
    hide Tallies;
  }

  lemma NothingGathered(sign: Fields -> string, total: nat)
    ensures Gathered(sign, [], Report(total, 0, 0, map[], map[], map[], 0, 0, []))
  {
  }

  lemma OneJunk(past: seq<Entry>)
    ensures past + Entries([Junk]) == past
  {
    assert [Junk][..0] == [];
  }

  lemma LoadedFits(file: seq<Line>, max: nat, recent: seq<Line>)
    requires recent == LastN(file, max)
    ensures LastN(Entries(recent), max) == Loaded(file, max)
  {
    hide Entries;
    JunkShortens(recent);
  }
}
