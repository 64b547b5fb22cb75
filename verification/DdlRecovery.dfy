/**
 The DDL crash marker (crates/synddb-client/src/ddl_recovery.rs and the parts of
 crates/synddb-client/src/lib.rs that use it).  Each client call is the sequence of effects it has
 on what survives a crash; a crash is any prefix of that sequence.
 */
module DdlRecovery {

  /**
   What survives a crash.  `dirty`: detected DDL has changed the schema since the last snapshot was
   created locally.
   */
  datatype Disk = Disk(marker: bool, dirty: bool)

  datatype Effect =
    | WriteMarker(ok: bool)
    | ExecuteBatch(detected: bool, changed: bool)
    | CreateSnapshot(ok: bool)
    | ClearMarker(ok: bool)
    | SendSnapshot

  function Apply(d: Disk, e: Effect): Disk {
    match e
    case WriteMarker(ok) => d.(marker := d.marker || ok)
    case ExecuteBatch(detected, changed) => d.(dirty := d.dirty || (detected && changed))
    case CreateSnapshot(ok) => d.(dirty := d.dirty && !ok)
    case ClearMarker(ok) => d.(marker := d.marker && !ok)
    case SendSnapshot => d
  }

  function ApplyAll(d: Disk, effects: seq<Effect>): Disk
    decreases effects
  {
    if effects == [] then d else ApplyAll(Apply(d, effects[0]), effects[1..])
  }

  // ---------------------------------------------------------------- DDL detection

  predicate IsSpace(c: char) {
    var n := c as int;
    || 9 <= n <= 13 || n == 0x20 || n == 0x85 || n == 0xA0 || n == 0x1680 || 0x2000 <= n <= 0x200A
    || n == 0x2028 || n == 0x2029 || n == 0x202F || n == 0x205F || n == 0x3000
  }

  /** The characters with the Unicode property White_Space. */
  const WHITE_SPACE: set<int> := {9, 10, 11, 12, 13, 32, 133, 160, 5760, 8192, 8193, 8194, 8195, 8196, 8197,
                                  8198, 8199, 8200, 8201, 8202, 8232, 8233, 8239, 8287, 12288}

  lemma SpaceExact(c: char)
    ensures IsSpace(c) <==> c as int in WHITE_SPACE
  {
  }

  function TrimStart(s: string): string {
    if s != "" && IsSpace(s[0]) then TrimStart(s[1..]) else s
  }

  /** Upper case of the letters the keywords are made of; no other character maps onto those. */
  function Upper(c: char): char {
    if 'a' <= c <= 'z' then c - 'a' + 'A' else c
  }

  predicate StartsWith(s: string, keyword: string) {
    |keyword| <= |s| && forall i :: 0 <= i < |keyword| ==> Upper(s[i]) == keyword[i]
  }

  predicate IsDdl(sql: string) {
    var s := TrimStart(sql);
    StartsWith(s, "CREATE ") || StartsWith(s, "ALTER ") || StartsWith(s, "DROP ")
  }

  predicate IsKeyword(word: string) {
    || (|word| == 6 && StartsWith(word, "CREATE"))
    || (|word| == 5 && StartsWith(word, "ALTER"))
    || (|word| == 4 && StartsWith(word, "DROP"))
  }

  lemma {:induction false} TrimIndent(indent: string, s: string)
    requires forall i :: 0 <= i < |indent| ==> IsSpace(indent[i])
    ensures TrimStart(indent + s) == TrimStart(s)
  {
    if indent == "" {
      assert indent + s == s;
    } else {
      assert (indent + s)[1..] == indent[1..] + s;
      TrimIndent(indent[1..], s);
    }
  }

  /**
   What detection catches of a statement that begins with a DDL keyword, in any case and however
   indented: it is caught exactly when the keyword is followed by a blank; a tab or a line break in
   its place goes unnoticed.
   */
  lemma DetectedExactly(indent: string, word: string, c: char, rest: string)
    requires forall i :: 0 <= i < |indent| ==> IsSpace(indent[i])
    requires IsKeyword(word)
    ensures IsDdl(indent + (word + [c] + rest)) <==> c == ' '
  {
    var s := word + [c] + rest;
    TrimIndent(indent, s);
    assert s[0] == word[0] && s[|word|] == c;
    assert Upper(word[0]) == (if |word| == 6 then "CREATE"[0] else if |word| == 5 then "ALTER"[0] else "DROP"[0]);
    assert !IsSpace(s[0]);
    assert forall i :: 0 <= i < |word| ==> s[i] == word[i];
    if |word| == 6 {
      FollowedByBlank(s, "CREATE", "CREATE ");
    } else if |word| == 5 {
      FollowedByBlank(s, "ALTER", "ALTER ");
    } else {
      FollowedByBlank(s, "DROP", "DROP ");
    }
  }

  /** The blanks that `TrimStart` takes off. */
  function Indent(s: string): string {
    if s != "" && IsSpace(s[0]) then [s[0]] + Indent(s[1..]) else ""
  }

  lemma {:induction false} TrimSplits(s: string)
    ensures s == Indent(s) + TrimStart(s) && forall i :: 0 <= i < |Indent(s)| ==> IsSpace(Indent(s)[i])
  {
    if s != "" && IsSpace(s[0]) {
      hide IsSpace;
      TrimSplits(s[1..]);
      var rest := Indent(s[1..]);
      assert s == [s[0]] + s[1..];
      assert s == [s[0]] + (rest + TrimStart(s)) == ([s[0]] + rest) + TrimStart(s);
    }
  }

  /** An indented DDL keyword in any case, a blank, and anything. */
  ghost predicate DdlShape(sql: string, indent: string, word: string, rest: string) {
    && sql == indent + (word + [' '] + rest) && IsKeyword(word)
    && forall i :: 0 <= i < |indent| ==> IsSpace(indent[i])
  }

  lemma BlankEnds(s: string, word: string, keyword: string)
    requires StartsWith(s, keyword) && keyword == word + " "
    ensures |word| < |s| && StartsWith(s[..|word|], word) && s == s[..|word|] + [' '] + s[|word| + 1..]
  {
    assert keyword[|word|] == ' ';
    assert Upper(s[|word|]) == ' ';
    assert forall i :: 0 <= i < |word| ==> keyword[i] == word[i];
  }

  /** Exactly the statements that detection catches, among all texts. */
  lemma DetectedShape(sql: string)
    ensures IsDdl(sql) <==> exists indent, word, rest :: DdlShape(sql, indent, word, rest)
  {
    hide IsSpace;
    if IsDdl(sql) {
      TrimSplits(sql);
      var s := TrimStart(sql);
      var word := if StartsWith(s, "CREATE ") then "CREATE" else if StartsWith(s, "ALTER ") then "ALTER" else "DROP";
      BlankEnds(s, word, word + " ");
      assert DdlShape(sql, Indent(sql), s[..|word|], s[|word| + 1..]);
    }
    if indent, word, rest :| DdlShape(sql, indent, word, rest) {
      DetectedExactly(indent, word, ' ', rest);
    }
  }

  function Lower(s: string): (r: string)
    ensures |r| == |s|
    ensures forall i :: 0 <= i < |s| ==> r[i] == if 'A' <= s[i] <= 'Z' then s[i] - 'A' + 'a' else s[i]
  {
    seq(|s|, i requires 0 <= i < |s| => if 'A' <= s[i] <= 'Z' then s[i] - 'A' + 'a' else s[i])
  }

  lemma {:induction false} TrimLower(s: string)
    ensures TrimStart(Lower(s)) == Lower(TrimStart(s))
  {
    if s != "" && IsSpace(s[0]) {
      TrimLower(s[1..]);
      assert Lower(s)[1..] == Lower(s[1..]);
    }
  }

  lemma StartsWithLower(s: string, keyword: string)
    ensures StartsWith(Lower(s), keyword) <==> StartsWith(s, keyword)
  {
    assert forall i :: 0 <= i < |s| ==> Upper(Lower(s)[i]) == Upper(s[i]);
  }

  /** Detection ignores case, on every text. */
  lemma CaseIgnored(sql: string)
    ensures IsDdl(Lower(sql)) <==> IsDdl(sql)
  {
    TrimLower(sql);
    var s := TrimStart(sql);
    StartsWithLower(s, "CREATE ");
    StartsWithLower(s, "ALTER ");
    StartsWithLower(s, "DROP ");
  }

  lemma FollowedByBlank(s: string, word: string, keyword: string)
    requires |word| < |s| && StartsWith(s, word) && keyword == word + " "
    ensures StartsWith(s, keyword) <==> s[|word|] == ' '
  {
    assert keyword[|word|] == ' ';
    assert forall i :: 0 <= i < |word| ==> keyword[i] == word[i];
    if s[|word|] != ' ' {
      assert Upper(s[|word|]) != ' ';
    }
  }

  // ---------------------------------------------------------------- the calls

  datatype SnapshotAnswer = SnapshotAnswer(created: bool, cleared: bool)
  datatype DdlAnswer = DdlAnswer(written: bool, completed: bool, changed: bool, snapshot: SnapshotAnswer)
  datatype AttachAnswer = AttachAnswer(recovery: SnapshotAnswer, hasTables: bool, initial: SnapshotAnswer)

  /** `snapshot`: the marker goes once the snapshot exists locally, before it is sent. */
  function SnapshotTrace(onFile: bool, a: SnapshotAnswer): seq<Effect> {
    if !a.created then [CreateSnapshot(false)]
    else [CreateSnapshot(true)] + (if onFile then [ClearMarker(a.cleared)] else []) + [SendSnapshot]
  }

  function DdlTrace(onFile: bool, sql: string, a: DdlAnswer): seq<Effect> {
    (if IsDdl(sql) && onFile then [WriteMarker(a.written)] else [])
    + [ExecuteBatch(IsDdl(sql), a.changed)]
    + if IsDdl(sql) && a.completed then SnapshotTrace(onFile, a.snapshot) else []
  }

  /** `marker`: whether the marker was found when the attach began. */
  function AttachTrace(onFile: bool, marker: bool, a: AttachAnswer): seq<Effect> {
    (if onFile && marker then SnapshotTrace(onFile, a.recovery) else [])
    + if a.hasTables then SnapshotTrace(onFile, a.initial) else []
  }

  datatype Call =
    | Attach(attach: AttachAnswer)
    | ExecuteDdl(sql: string, ddl: DdlAnswer)
    | TakeSnapshot(snapshot: SnapshotAnswer)

  function Trace(onFile: bool, d: Disk, c: Call): seq<Effect> {
    match c
    case Attach(a) => AttachTrace(onFile, d.marker, a)
    case ExecuteDdl(sql, a) => DdlTrace(onFile, sql, a)
    case TakeSnapshot(a) => SnapshotTrace(onFile, a)
  }

  /** A call cut off after `done` of its effects; `done` beyond the end means it was not cut off. */
  datatype Attempt = Attempt(call: Call, done: nat)

  function Prefix(effects: seq<Effect>, done: nat): seq<Effect> {
    if done < |effects| then effects[..done] else effects
  }

  function Run(onFile: bool, d: Disk, attempts: seq<Attempt>): Disk {
    if attempts == [] then d
    else
      var last := attempts[|attempts| - 1];
      var d' := Run(onFile, d, attempts[..|attempts| - 1]);
      ApplyAll(d', Prefix(Trace(onFile, d', last.call), last.done))
  }

  // ---------------------------------------------------------------- the guarantee

  predicate Guarded(d: Disk) {
    d.dirty ==> d.marker
  }

  /**
   A disciplined sequence of effects: DDL that changes the schema runs only with the marker in
   place, and the marker goes only right after a snapshot was created.
   */
  ghost predicate Disciplined(marker: bool, effects: seq<Effect>)
    decreases effects
  {
    effects == [] ||
    (var e, rest := effects[0], effects[1..];
     match e
     case WriteMarker(ok) => Disciplined(marker || ok, rest)
     case ExecuteBatch(detected, changed) => (detected && changed ==> marker) && Disciplined(marker, rest)
     case CreateSnapshot(ok) =>
       if ok && rest != [] && rest[0].ClearMarker? then Disciplined(marker && !rest[0].ok, rest[1..])
       else Disciplined(marker, rest)
     case ClearMarker(_) => false
     case SendSnapshot => Disciplined(marker, rest))
  }

  lemma {:induction false} DisciplinedPrefix(marker: bool, effects: seq<Effect>, done: nat)
    requires Disciplined(marker, effects) && done <= |effects|
    ensures Disciplined(marker, effects[..done])
    decreases effects
  {
    if 0 < done {
      var e, rest := effects[0], effects[1..];
      assert effects[..done][1..] == rest[..done - 1];
      if e == CreateSnapshot(true) && rest != [] && rest[0].ClearMarker? {
        if done > 1 {
          assert rest[..done - 1][1..] == rest[1..][..done - 2];
          DisciplinedPrefix(marker && !rest[0].ok, rest[1..], done - 2);
        }
      } else {
        DisciplinedPrefix(Apply(Disk(marker, false), e).marker, rest, done - 1);
      }
    }
  }

  lemma {:induction false} DisciplinedKeepsGuard(d: Disk, effects: seq<Effect>)
    requires Guarded(d) && Disciplined(d.marker, effects)
    ensures Guarded(ApplyAll(d, effects))
    decreases effects
  {
    if effects != [] {
      var e, rest := effects[0], effects[1..];
      if e == CreateSnapshot(true) && rest != [] && rest[0].ClearMarker? {
        DisciplinedKeepsGuard(Apply(Apply(d, e), rest[0]), rest[1..]);
      } else {
        DisciplinedKeepsGuard(Apply(d, e), rest);
      }
    }
  }

  lemma {:induction false} DisciplinedConcat(d: Disk, a: seq<Effect>, b: seq<Effect>)
    requires Disciplined(d.marker, a) && forall m :: Disciplined(m, b)
    requires a == [] || !a[|a| - 1].CreateSnapshot? || b == [] || !b[0].ClearMarker?
    ensures Disciplined(d.marker, a + b)
    decreases a
  {
    if a == [] {
      assert a + b == b;
    } else {
      var e, rest := a[0], a[1..];
      assert (a + b)[1..] == rest + b;
      if e == CreateSnapshot(true) && rest != [] && rest[0].ClearMarker? {
        assert (rest + b)[1..] == rest[1..] + b;
        DisciplinedConcat(Apply(Apply(d, e), rest[0]), rest[1..], b);
      } else {
        DisciplinedConcat(Apply(d, e), rest, b);
      }
    }
  }

  lemma SnapshotDisciplined(onFile: bool, marker: bool, a: SnapshotAnswer)
    ensures Disciplined(marker, SnapshotTrace(onFile, a))
    ensures SnapshotTrace(onFile, a)[0].CreateSnapshot?
  {
    if a.created && onFile {
      var t := [CreateSnapshot(true), ClearMarker(a.cleared), SendSnapshot];
      assert SnapshotTrace(onFile, a) == t;
      assert t[1..][0] == ClearMarker(a.cleared) && t[1..][1..] == [SendSnapshot];
      assert [SendSnapshot][1..] == [];
    } else if a.created {
      var t := [CreateSnapshot(true), SendSnapshot];
      assert SnapshotTrace(onFile, a) == t;
      assert t[1..] == [SendSnapshot] && t[1..][1..] == [];
    }
  }

  /** Attaching clears the marker only right after a recovery or initial snapshot was created. */
  lemma AttachDisciplined(onFile: bool, d: Disk, a: AttachAnswer)
    ensures Disciplined(d.marker, AttachTrace(onFile, d.marker, a))
  {
    forall m ensures Disciplined(m, SnapshotTrace(onFile, a.initial)) {
      SnapshotDisciplined(onFile, m, a.initial);
    }
    SnapshotDisciplined(onFile, d.marker, a.recovery);
    SnapshotDisciplined(onFile, d.marker, a.initial);
    var first := if onFile && d.marker then SnapshotTrace(onFile, a.recovery) else [];
    var second := if a.hasTables then SnapshotTrace(onFile, a.initial) else [];
    DisciplinedConcat(d, first, second);
  }

  /** Detected DDL that changes the schema needs a marker, fresh or left over. */
  predicate Protected(onFile: bool, d: Disk, sql: string, a: DdlAnswer) {
    IsDdl(sql) && a.changed ==> d.marker || (onFile && a.written)
  }

  lemma DdlDisciplined(onFile: bool, d: Disk, sql: string, a: DdlAnswer)
    requires Protected(onFile, d, sql, a)
    ensures Disciplined(d.marker, DdlTrace(onFile, sql, a))
  {
    forall m ensures Disciplined(m, SnapshotTrace(onFile, a.snapshot)) {
      SnapshotDisciplined(onFile, m, a.snapshot);
    }
    SnapshotDisciplined(onFile, d.marker, a.snapshot);
    var detected := IsDdl(sql);
    var write := if detected && onFile then [WriteMarker(a.written)] else [];
    var batch := [ExecuteBatch(detected, a.changed)];
    assert batch[1..] == [];
    assert Disciplined(d.marker, write + batch) by {
      if write == [] {
        assert write + batch == batch;
      } else {
        assert (write + batch)[1..] == batch;
      }
    }
    DisciplinedConcat(d, write + batch, if detected && a.completed then SnapshotTrace(onFile, a.snapshot) else []);
  }

  /**
   Exactly when `execute_ddl` keeps the guarantee at every point where it can be cut off: the
   database is on file and the marker is written, or a marker is there already, or nothing detected
   changes the schema.
   */
  lemma DdlExact(onFile: bool, d: Disk, sql: string, a: DdlAnswer)
    requires Guarded(d)
    ensures (forall done :: Guarded(ApplyAll(d, Prefix(DdlTrace(onFile, sql, a), done))))
       <==> Protected(onFile, d, sql, a)
  {
    var t := DdlTrace(onFile, sql, a);
    if Protected(onFile, d, sql, a) {
      forall done: nat ensures Guarded(ApplyAll(d, Prefix(t, done))) {
        DdlDisciplined(onFile, d, sql, a);
        DisciplinedPrefix(d.marker, t, if done < |t| then done else |t|);
        assert t[..|t|] == t;
        DisciplinedKeepsGuard(d, Prefix(t, done));
      }
    } else {
      var n := if onFile then 2 else 1;
      var cut := if onFile then [WriteMarker(false), ExecuteBatch(true, true)] else [ExecuteBatch(true, true)];
      assert t[..n] == cut;
      assert Prefix(t, n) == cut;
      assert ApplyAll(d, cut) == Disk(false, true) by {
        var batch := [ExecuteBatch(true, true)];
        assert batch[1..] == [] && ApplyAll(d, batch) == Disk(false, true);
        if onFile {
          assert cut[1..] == batch;
        }
      }
      assert !Guarded(ApplyAll(d, Prefix(t, n)));
    }
  }

  predicate MarkerWritten(a: Attempt) {
    a.call.ExecuteDdl? ==> a.call.ddl.written
  }

  lemma CallDisciplined(d: Disk, a: Attempt)
    requires MarkerWritten(a)
    ensures Disciplined(d.marker, Trace(true, d, a.call))
  {
    hide Disciplined;
    match a.call
    case Attach(answer) => AttachDisciplined(true, d, answer);
    case ExecuteDdl(sql, answer) => DdlDisciplined(true, d, sql, answer);
    case TakeSnapshot(answer) => SnapshotDisciplined(true, d.marker, answer);
  }

  /**
   With a crash possible between any two effects of any call, on a file database whose marker writes
   succeed: whenever detected DDL has changed the schema since the last locally created snapshot, the
   marker exists.
   */
  lemma {:induction false} RunGuarded(d: Disk, attempts: seq<Attempt>)
    requires Guarded(d)
    requires forall i :: 0 <= i < |attempts| ==> MarkerWritten(attempts[i])
    ensures Guarded(Run(true, d, attempts))
  {
    if attempts != [] {
      hide Trace;
      var n := |attempts| - 1;
      RunGuarded(d, attempts[..n]);
      var d' := Run(true, d, attempts[..n]);
      var t := Trace(true, d', attempts[n].call);
      CallDisciplined(d', attempts[n]);
      assert t[..|t|] == t;
      DisciplinedPrefix(d'.marker, t, if attempts[n].done < |t| then attempts[n].done else |t|);
      DisciplinedKeepsGuard(d', Prefix(t, attempts[n].done));
    }
  }

  lemma SnapshotEffect(onFile: bool, d: Disk, a: SnapshotAnswer)
    ensures ApplyAll(d, SnapshotTrace(onFile, a))
         == Disk(d.marker && !(onFile && a.created && a.cleared), d.dirty && !a.created)
  {
    var first := [CreateSnapshot(a.created)];
    assert first[1..] == [] && ApplyAll(d, first) == Apply(d, first[0]);
    if a.created {
      var clear := if onFile then [ClearMarker(a.cleared)] else [];
      ApplyAllConcat(d, first + clear, [SendSnapshot]);
      ApplyAllConcat(d, first, clear);
      assert [SendSnapshot][1..] == [] && (onFile ==> clear[1..] == []);
    }
  }

  lemma {:induction false} ApplyAllConcat(d: Disk, a: seq<Effect>, b: seq<Effect>)
    ensures ApplyAll(d, a + b) == ApplyAll(ApplyAll(d, a), b)
    decreases a
  {
    if a == [] {
      assert a + b == b;
    } else {
      assert (a + b)[1..] == a[1..] + b;
      ApplyAllConcat(Apply(d, a[0]), a[1..], b);
    }
  }

  /**
   Recovery: an attach that runs to its end, on a guarded file database and with its snapshots created
   and the marker removed, leaves nothing uncovered and no marker behind.
   */
  lemma AttachRecovers(d: Disk, a: AttachAnswer)
    requires Guarded(d) && a.recovery == SnapshotAnswer(true, true)
    ensures ApplyAll(d, AttachTrace(true, d.marker, a)) == Disk(false, false)
  {
    var first := if d.marker then SnapshotTrace(true, a.recovery) else [];
    var second := if a.hasTables then SnapshotTrace(true, a.initial) else [];
    SnapshotEffect(true, d, a.recovery);
    ApplyAllConcat(d, first, second);
    SnapshotEffect(true, ApplyAll(d, first), a.initial);
  }

  /**
   The end of an `execute_ddl` that was not cut off.  Detected DDL that completed and whose snapshot was
   created is covered, its snapshot sent last, and no marker is left if it could be removed; without a
   snapshot nothing is sent and, on file, the marker that was written stays.
   */
  lemma DdlCovers(onFile: bool, d: Disk, sql: string, a: DdlAnswer)
    requires IsDdl(sql)
    ensures var t := DdlTrace(onFile, sql, a);
            var d' := ApplyAll(d, t);
            if a.completed && a.snapshot.created
            then !d'.dirty && t[|t| - 1] == SendSnapshot && (onFile && a.snapshot.cleared ==> !d'.marker)
            else SendSnapshot !in t && d'.dirty == (d.dirty || a.changed) && (onFile && a.written ==> d'.marker)
  {
    var write := if onFile then [WriteMarker(a.written)] else [];
    var batch := [ExecuteBatch(true, a.changed)];
    var snapshot := if a.completed then SnapshotTrace(onFile, a.snapshot) else [];
    assert DdlTrace(onFile, sql, a) == write + batch + snapshot;
    ApplyAllConcat(d, write + batch, snapshot);
    ApplyAllConcat(d, write, batch);
    assert batch[1..] == [] && (onFile ==> write[1..] == []);
    SnapshotEffect(onFile, ApplyAll(d, write + batch), a.snapshot);
  }

  /** A statement not detected is one effect, and leaves the disk as it was. */
  lemma UndetectedIsPlain(onFile: bool, d: Disk, sql: string, a: DdlAnswer)
    requires !IsDdl(sql)
    ensures DdlTrace(onFile, sql, a) == [ExecuteBatch(false, a.changed)]
    ensures ApplyAll(d, DdlTrace(onFile, sql, a)) == d
  {
    var t := [ExecuteBatch(false, a.changed)];
    assert DdlTrace(onFile, sql, a) == t && t[1..] == [];
  }

  predicate Sends(effects: seq<Effect>) {
    SendSnapshot in effects
  }

  lemma SnapshotSends(onFile: bool, a: SnapshotAnswer)
    ensures Sends(SnapshotTrace(onFile, a)) <==> a.created
  {
    var t := SnapshotTrace(onFile, a);
    assert a.created ==> t[|t| - 1] == SendSnapshot;
  }

  /**
   Which calls put a snapshot on its way to the validators: an attach that finds the marker or finds
   tables, and detected DDL that completed; in each case if that snapshot could be created.
   */
  lemma SendsExactly(onFile: bool, d: Disk, c: Call)
    ensures Sends(Trace(onFile, d, c)) <==>
      match c
      case Attach(a) => (onFile && d.marker && a.recovery.created) || (a.hasTables && a.initial.created)
      case ExecuteDdl(sql, a) => IsDdl(sql) && a.completed && a.snapshot.created
      case TakeSnapshot(a) => a.created
  {
    hide IsDdl, SnapshotTrace;
    match c
    case Attach(a) =>
      SnapshotSends(onFile, a.recovery);
      SnapshotSends(onFile, a.initial);
    case ExecuteDdl(sql, a) => SnapshotSends(onFile, a.snapshot);
    case TakeSnapshot(a) => SnapshotSends(onFile, a);
  }

  // ---------------------------------------------------------------- the client itself

  /** `SyndDB`, with the marker file and the history of its effects. */
  class Client {
    const onFile: bool
    var marker: bool
    ghost var dirty: bool
    ghost var history: seq<Effect>

    ghost function Value(): Disk
      reads this
    {
      Disk(marker, dirty)
    }

    /** The effects `t` were performed, in this order, since `past` and `d`. */
    ghost predicate Performed(d: Disk, past: seq<Effect>, t: seq<Effect>)
      reads this
    {
      history == past + t && Value() == ApplyAll(d, t)
    }

    constructor (onFile: bool, disk: Disk)
      ensures this.onFile == onFile && Value() == disk && history == []
    {
      this.onFile, marker, dirty, history := onFile, disk.marker, disk.dirty, [];
    }

    method Perform(e: Effect, ghost d: Disk, ghost past: seq<Effect>, ghost t: seq<Effect>)
      requires Performed(d, past, t)
      modifies this
      ensures Performed(d, past, t + [e])
    {
      match e {
        case WriteMarker(ok) => if ok { marker := true; }
        case ExecuteBatch(detected, changed) => dirty := dirty || (detected && changed);
        case CreateSnapshot(ok) => dirty := dirty && !ok;
        case ClearMarker(ok) => if marker && ok { marker := false; }
        case SendSnapshot =>
      }
      history := history + [e];
      ApplyAllConcat(d, t, [e]);
      assert [e][1..] == [];
      assert past + t + [e] == past + (t + [e]);
    }

    /** Continues a call that has performed `t` so far; returns whether a snapshot exists. */
    method Snapshot(a: SnapshotAnswer, ghost d: Disk, ghost past: seq<Effect>, ghost t: seq<Effect>) returns (ok: bool)
      requires Performed(d, past, t)
      modifies this
      ensures Performed(d, past, t + SnapshotTrace(onFile, a)) && ok == a.created
    {
      Perform(CreateSnapshot(a.created), d, past, t);
      if !a.created {
        return false;
      }
      ghost var t1 := t + [CreateSnapshot(true)];
      if onFile {
        Perform(ClearMarker(a.cleared), d, past, t1);
        t1 := t1 + [ClearMarker(a.cleared)];
      }
      Perform(SendSnapshot, d, past, t1);
      assert t1 + [SendSnapshot] == t + SnapshotTrace(onFile, a);
      ok := true;
    }

    method ExecuteDdlStatement(sql: string, a: DdlAnswer)
      modifies this
      ensures Performed(old(Value()), old(history), DdlTrace(onFile, sql, a))
    {
      ghost var d, past, t := Value(), history, [];
      var detected := IsDdl(sql);
      if detected && onFile {
        Perform(WriteMarker(a.written), d, past, t);
        t := t + [WriteMarker(a.written)];
      }
      Perform(ExecuteBatch(detected, a.changed), d, past, t);
      t := t + [ExecuteBatch(detected, a.changed)];
      if a.completed && detected {
        var _ := Snapshot(a.snapshot, d, past, t);
        t := t + SnapshotTrace(onFile, a.snapshot);
      }
      assert t == DdlTrace(onFile, sql, a);
    }

    /** The recovery part of `attach_with_config`. */
    method AttachClient(a: AttachAnswer)
      modifies this
      ensures Performed(old(Value()), old(history), AttachTrace(onFile, old(marker), a))
    {
      ghost var d, past, t := Value(), history, [];
      var needsRecovery := onFile && marker;
      if needsRecovery {
        var _ := Snapshot(a.recovery, d, past, t);
        t := t + SnapshotTrace(onFile, a.recovery);
      }
      if a.hasTables {
        var _ := Snapshot(a.initial, d, past, t);
        t := t + SnapshotTrace(onFile, a.initial);
      }
      assert t == AttachTrace(onFile, old(marker), a);
    }
  }
}
