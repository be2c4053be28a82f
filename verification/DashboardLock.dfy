/** Saving a dashboard: the row's version counter, and editors whose reads, loads, version checks and
    commits interleave. */
module DashboardLock {
  import opened Options

  datatype Field = Name | Layout | Tags | IsDraft | IsArchived | FiltersEnabled | SavedOptions

  type Fields = map<Field, string>

  datatype Row = Row(version: int, fields: Fields)

  /** A POST body with the fields that are projected out of it, or a DELETE. */
  datatype Request = Edit(version: Option<int>, fields: Fields) | Archive

  /** ServerError: the archive handler does not catch a stale row. */
  datatype Status = Saved | Conflict | ServerError

  /** Seen: an editor has fetched the dashboard. Then the server loads the row for a request, compares versions
      and commits. */
  datatype Phase = Seen | Loaded(request: Request, loaded: Row) | Checked(request: Request, loaded: Row)
                 | Answered(request: Request, status: Status)

  datatype Editor = Editor(seen: Row, phase: Phase)

  /** A committed UPDATE. */
  datatype Write = Write(editor: nat, before: Row, after: Row)

  datatype State = State(row: Row, editors: seq<Editor>, writes: seq<Write>)

  datatype Step =
    | Fetch
    | Load(id: nat, request: Request)
    | Check(id: nat)
    | Commit(id: nat)

  // ---- the handler ----

  function Carried(request: Request): Option<int>
  {
    if request.Edit? then request.version else None
  }

  function Changes(request: Request): Fields
  {
    if request.Edit? then request.fields else map[IsArchived := "true"]
  }

  /** Some attribute of the loaded object is set, so that there is an UPDATE; setting the version counts. */
  predicate Touches(request: Request)
  {
    Changes(request) != map[] || Carried(request).Some?
  }

  predicate StartsBehind(request: Request, loaded: Row)
  {
    Carried(request).Some? && Carried(request).value != loaded.version
  }

  /** UPDATE ... SET version = loaded + 1 WHERE version = loaded; no row matched is a stale row. */
  function Flushed(row: Row, loaded: Row, request: Request): (Row, Status)
  {
    if !Touches(request) then (row, Saved) else
    if row.version != loaded.version then (row, if request.Edit? then Conflict else ServerError) else
    (Row(loaded.version + 1, row.fields + Changes(request)), Saved)
  }

  class Session {
    const loaded: Row
    var changed: Fields
    var touched: bool

    constructor (row: Row)
      ensures loaded == row && changed == map[] && !touched
    {
      loaded, changed, touched := row, map[], false;
    }

    method SetAttribute(field: Field, value: string)
      modifies this
      ensures changed == old(changed)[field := value] && touched
    {
      changed, touched := changed[field := value], true;
    }

    /** update_model: one setattr for each of the updates. */
    method UpdateModel(updates: seq<(Field, string)>, version: Option<int>)
      modifies this
      ensures changed == old(changed) + Collected(updates)
      ensures Overwritten(old(changed), updates, changed)
      ensures touched == (old(touched) || updates != [] || version.Some?)
    {
      CollectedOverwrites(changed, updates);
      hide Overwritten;
      for i := 0 to |updates|
        invariant changed == old(changed) + Collected(updates[..i])
        invariant touched == (old(touched) || i > 0)
      {
        assert updates[..i + 1][..i] == updates[..i];
        SetAttribute(updates[i].0, updates[i].1);
      }
      assert updates[..|updates|] == updates;
      touched := touched || version.Some?;
    }
  }

  /** The dict that a JSON object's members make. */
  function Collected(updates: seq<(Field, string)>): Fields
  {
    if updates == [] then map[] else
    var last := updates[|updates| - 1];
    Collected(updates[..|updates| - 1])[last.0 := last.1]
  }

  ghost predicate Named(updates: seq<(Field, string)>, field: Field)
  {
    exists i :: 0 <= i < |updates| && updates[i].0 == field
  }

  /** The i-th update is the last one of its field. */
  ghost predicate LastOfField(updates: seq<(Field, string)>, i: int)
  {
    0 <= i < |updates| && forall j :: i < j < |updates| ==> updates[j].0 != updates[i].0
  }

  /** Each named field holds the value it is given last, and every other field what it held. */
  ghost predicate Overwritten(before: Fields, updates: seq<(Field, string)>, after: Fields)
  {
    (forall i :: LastOfField(updates, i) ==> updates[i].0 in after && after[updates[i].0] == updates[i].1) &&
    (forall f :: !Named(updates, f) ==> (f in after <==> f in before)) &&
    (forall f :: !Named(updates, f) && f in before && f in after ==> after[f] == before[f])
  }

  lemma {:induction false} CollectedAt(updates: seq<(Field, string)>, field: Field)
    ensures field in Collected(updates) <==> Named(updates, field)
    ensures forall i :: LastOfField(updates, i) && updates[i].0 == field ==>
              field in Collected(updates) && Collected(updates)[field] == updates[i].1
  {
    if updates != [] {
      var n := |updates| - 1;
      var front, last := updates[..n], updates[n];
      assert Collected(updates) == Collected(front)[last.0 := last.1];
      hide Collected;
      CollectedAt(front, field);
      if last.0 != field {
        assert forall i :: 0 <= i < n ==> front[i] == updates[i];
        assert Named(front, field) <==> Named(updates, field);
        hide Named;
        forall i | LastOfField(updates, i) && updates[i].0 == field
          ensures LastOfField(front, i) && front[i] == updates[i]
        {
        }
      }
    }
  }

  lemma CollectedOverwrites(before: Fields, updates: seq<(Field, string)>)
    ensures Overwritten(before, updates, before + Collected(updates))
  {
    hide Collected;
    forall f {
      CollectedAt(updates, f);
    }
  }

  /** The row and the status after a POST of these updates on a row that was loaded as `loaded`. */
  function Posted(row: Row, loaded: Row, updates: seq<(Field, string)>, version: Option<int>): (Row, Status)
  {
    var request := Edit(version, Collected(updates));
    if StartsBehind(request, loaded) then (row, Conflict) else Flushed(row, loaded, request)
  }

  lemma PostedIs(row: Row, loaded: Row, updates: seq<(Field, string)>, version: Option<int>)
    ensures var (after, status) := Posted(row, loaded, updates, version);
            (status.Conflict? <==> (version.Some? && version.value != loaded.version) ||
                                   ((updates != [] || version.Some?) && row.version != loaded.version)) &&
            (!status.Conflict? ==> status.Saved? && Overwritten(row.fields, updates, after.fields)) &&
            (status.Conflict? ==> after == row)
  {
    CollectedOverwrites(row.fields, updates);
    assert updates != [] ==> updates[|updates| - 1].0 in Collected(updates);
    assert row.fields + map[] == row.fields;
    hide Overwritten;
  }

  class Table {
    var row: Row

    constructor (row: Row)
      ensures this.row == row
    {
      this.row := row;
    }

    method Flush(session: Session) returns (ok: bool)
      requires session.touched || session.changed == map[]
      modifies this
      ensures ok == (!session.touched || old(row).version == session.loaded.version)
      ensures row == if ok && session.touched
                     then Row(session.loaded.version + 1, old(row).fields + session.changed) else old(row)
    {
      ok := true;
      if session.touched {
        ok := row.version == session.loaded.version;
        if ok {
          row := Row(session.loaded.version + 1, row.fields + session.changed);
        }
      }
    }

    /** The POST handler from the loaded object on; other requests may have written to the table since. */
    method Post(loaded: Row, updates: seq<(Field, string)>, version: Option<int>) returns (status: Status)
      modifies this
      ensures (row, status) == Posted(old(row), loaded, updates, version)
      ensures status.Conflict? <==> (version.Some? && version.value != loaded.version) ||
                                    ((updates != [] || version.Some?) && old(row).version != loaded.version)
      ensures !status.Conflict? ==> status.Saved? && Overwritten(old(row).fields, updates, row.fields)
      ensures status.Conflict? ==> row == old(row)
    {
      PostedIs(row, loaded, updates, version);
      hide Overwritten;
      if version.Some? && version.value != loaded.version {
        return Conflict;
      }
      var session := new Session(loaded);
      session.UpdateModel(updates, version);
      assert map[] + Collected(updates) == Collected(updates);
      assert updates != [] ==> updates[|updates| - 1].0 in Collected(updates);
      var ok := Flush(session);
      status := if ok then Saved else Conflict;
    }

    method Delete(loaded: Row) returns (status: Status)
      modifies this
      ensures (row, status) == Flushed(old(row), loaded, Archive)
      ensures status == if old(row).version == loaded.version then Saved else ServerError
      ensures status.Saved? ==> row.fields == old(row).fields[IsArchived := "true"]
    {
      var session := new Session(loaded);
      session.SetAttribute(IsArchived, "true");
      assert session.changed == Changes(Archive) && IsArchived in Changes(Archive);
      var ok := Flush(session);
      status := if ok then Saved else ServerError;
    }
  }

  // ---- runs ----

  function Start(first: Row): State
  {
    State(first, [], [])
  }

  predicate Enabled(s: State, step: Step)
  {
    match step
    case Fetch => true
    case Load(id, _) => id < |s.editors| && s.editors[id].phase.Seen?
    case Check(id) => id < |s.editors| && s.editors[id].phase.Loaded?
    case Commit(id) => id < |s.editors| && s.editors[id].phase.Checked?
  }

  function Apply(s: State, step: Step): State
  {
    if !Enabled(s, step) then s else
    match step
    case Fetch => s.(editors := s.editors + [Editor(s.row, Seen)])
    case Load(id, request) => s.(editors := s.editors[id := s.editors[id].(phase := Loaded(request, s.row))])
    case Check(id) =>
      var p := s.editors[id].phase;
      var next := if StartsBehind(p.request, p.loaded) then Answered(p.request, Conflict)
                  else Checked(p.request, p.loaded);
      s.(editors := s.editors[id := s.editors[id].(phase := next)])
    case Commit(id) =>
      var p := s.editors[id].phase;
      var (row, status) := Flushed(s.row, p.loaded, p.request);
      State(row, s.editors[id := s.editors[id].(phase := Answered(p.request, status))],
            if row == s.row then s.writes else s.writes + [Write(id, s.row, row)])
  }

  function Run(first: Row, steps: seq<Step>): State
  {
    if steps == [] then Start(first) else Apply(Run(first, steps[..|steps| - 1]), steps[|steps| - 1])
  }

  lemma RunStep(first: Row, steps: seq<Step>, step: Step)
    ensures Run(first, steps + [step]) == Apply(Run(first, steps), step)
  {
    assert (steps + [step])[..|steps|] == steps;
  }

  // ---- the invariant ----

  /** The row as it was after k writes. */
  function History(first: Row, writes: seq<Write>, k: nat): Row
    requires k <= |writes|
  {
    if k == 0 then first else writes[k - 1].after
  }

  ghost predicate Chained(first: Row, writes: seq<Write>)
  {
    forall i :: 0 <= i < |writes| ==> writes[i].before == History(first, writes, i) &&
                                      writes[i].after.version == first.version + i + 1
  }

  /** The row is a state of the dashboard, the one its version says. */
  ghost predicate Happened(first: Row, writes: seq<Write>, row: Row)
  {
    var k := row.version - first.version;
    0 <= k <= |writes| && row == History(first, writes, k)
  }

  ghost predicate EditorOk(first: Row, writes: seq<Write>, e: Editor)
  {
    Happened(first, writes, e.seen) &&
    match e.phase
    case Loaded(_, loaded) => Happened(first, writes, loaded)
    case Checked(request, loaded) => Happened(first, writes, loaded) && !StartsBehind(request, loaded)
    case _ => true
  }

  ghost predicate EditorsOk(first: Row, writes: seq<Write>, editors: seq<Editor>)
  {
    forall id :: 0 <= id < |editors| ==> EditorOk(first, writes, editors[id])
  }

  /** The write is what its editor's answered request makes of a row whose version the request may name, and which
      is not older than what the editor has seen. */
  ghost predicate WriteOk(w: Write, editors: seq<Editor>)
  {
    w.editor < |editors| && editors[w.editor].phase.Answered? &&
    var p := editors[w.editor].phase;
    p.status == Saved && Touches(p.request) && !StartsBehind(p.request, w.before) &&
    editors[w.editor].seen.version <= w.before.version &&
    w.after.fields == w.before.fields + Changes(p.request)
  }

  ghost predicate WritesOk(writes: seq<Write>, editors: seq<Editor>)
  {
    forall i :: 0 <= i < |writes| ==> WriteOk(writes[i], editors)
  }

  ghost predicate WroteBy(writes: seq<Write>, id: nat)
  {
    exists i :: 0 <= i < |writes| && writes[i].editor == id
  }

  /** A success with something to write has written. */
  ghost predicate AnswerOk(writes: seq<Write>, id: nat, e: Editor)
  {
    e.phase.Answered? && e.phase.status == Saved && Touches(e.phase.request) ==> WroteBy(writes, id)
  }

  ghost predicate AnswersOk(writes: seq<Write>, editors: seq<Editor>)
  {
    forall id :: 0 <= id < |editors| ==> AnswerOk(writes, id, editors[id])
  }

  ghost predicate OneEach(writes: seq<Write>)
  {
    forall i, j :: 0 <= i < j < |writes| ==> writes[i].editor != writes[j].editor
  }

  ghost predicate Inv(first: Row, s: State)
  {
    Chained(first, s.writes) && s.row == History(first, s.writes, |s.writes|) &&
    EditorsOk(first, s.writes, s.editors) && WritesOk(s.writes, s.editors) && AnswersOk(s.writes, s.editors) &&
    OneEach(s.writes)
  }

  lemma CurrentHappened(first: Row, writes: seq<Write>, row: Row)
    requires Chained(first, writes) && row == History(first, writes, |writes|)
    ensures Happened(first, writes, row) && row.version == first.version + |writes|
  {
  }

  lemma HistoryGrows(first: Row, writes: seq<Write>, w: Write, row: Row)
    requires Happened(first, writes, row)
    ensures Happened(first, writes + [w], row)
  {
  }

  lemma EditorsGrow(first: Row, writes: seq<Write>, w: Write, editors: seq<Editor>)
    requires EditorsOk(first, writes, editors)
    ensures EditorsOk(first, writes + [w], editors)
  {
    forall id | 0 <= id < |editors|
      ensures EditorOk(first, writes + [w], editors[id])
    {
      var e := editors[id];
      assert EditorOk(first, writes, e);
      HistoryGrows(first, writes, w, e.seen);
      if e.phase.Loaded? || e.phase.Checked? {
        HistoryGrows(first, writes, w, e.phase.loaded);
      }
    }
  }

  lemma AnswersGrow(writes: seq<Write>, w: Write, editors: seq<Editor>)
    requires AnswersOk(writes, editors)
    ensures AnswersOk(writes + [w], editors)
  {
    forall id | 0 <= id < |editors|
      ensures AnswerOk(writes + [w], id, editors[id])
    {
      assert AnswerOk(writes, id, editors[id]);
      if WroteBy(writes, id) {
        var i :| 0 <= i < |writes| && writes[i].editor == id;
        assert (writes + [w])[i].editor == id;
      }
    }
  }

  /** Two states of the dashboard with the same version are the same. */
  lemma VersionIdentifies(first: Row, writes: seq<Write>, a: Row, b: Row)
    requires Happened(first, writes, a) && Happened(first, writes, b) && a.version == b.version
    ensures a == b
  {
  }

  lemma EditorsSet(first: Row, writes: seq<Write>, editors: seq<Editor>, id: nat, e: Editor)
    requires EditorsOk(first, writes, editors) && id < |editors| && EditorOk(first, writes, e)
    ensures EditorsOk(first, writes, editors[id := e])
  {
    hide EditorOk;
  }

  lemma AnswersSet(writes: seq<Write>, editors: seq<Editor>, id: nat, e: Editor)
    requires AnswersOk(writes, editors) && id < |editors| && AnswerOk(writes, id, e)
    ensures AnswersOk(writes, editors[id := e])
  {
    hide AnswerOk;
  }

  /** An editor that has not been answered has written nothing, so its next phase contradicts no write. */
  lemma WritesSet(writes: seq<Write>, editors: seq<Editor>, id: nat, e: Editor)
    requires WritesOk(writes, editors) && id < |editors| && !editors[id].phase.Answered?
    ensures WritesOk(writes, editors[id := e])
    ensures forall i :: 0 <= i < |writes| ==> writes[i].editor != id
  {
    forall i | 0 <= i < |writes|
      ensures WriteOk(writes[i], editors[id := e]) && writes[i].editor != id
    {
      assert WriteOk(writes[i], editors);
      hide Touches, StartsBehind, Changes;
    }
    hide WriteOk;
  }

  /** A step of one editor that has not been answered before. */
  lemma EditorStep(first: Row, writes: seq<Write>, editors: seq<Editor>, id: nat, e: Editor)
    requires EditorsOk(first, writes, editors) && WritesOk(writes, editors) && AnswersOk(writes, editors)
    requires id < |editors| && !editors[id].phase.Answered?
    requires EditorOk(first, writes, e) && AnswerOk(writes, id, e)
    ensures EditorsOk(first, writes, editors[id := e]) && WritesOk(writes, editors[id := e])
    ensures AnswersOk(writes, editors[id := e])
  {
    EditorsSet(first, writes, editors, id, e);
    AnswersSet(writes, editors, id, e);
    WritesSet(writes, editors, id, e);
  }

  lemma WriteStays(w: Write, editors: seq<Editor>, e: Editor)
    requires WriteOk(w, editors)
    ensures WriteOk(w, editors + [e])
  {
  }

  lemma FetchStep(first: Row, s: State)
    requires Inv(first, s)
    ensures Inv(first, Apply(s, Fetch))
  {
    CurrentHappened(first, s.writes, s.row);
    var e := Editor(s.row, Seen);
    var editors := s.editors + [e];
    assert EditorOk(first, s.writes, e);
    assert AnswerOk(s.writes, |s.editors|, e);
    hide EditorOk, AnswerOk, Touches, StartsBehind, Changes, Chained, History, Happened, OneEach;
    assert EditorsOk(first, s.writes, editors);
    assert AnswersOk(s.writes, editors);
    hide WriteOk;
    forall i | 0 <= i < |s.writes|
      ensures WriteOk(s.writes[i], editors)
    {
      WriteStays(s.writes[i], s.editors, e);
    }
    assert WritesOk(s.writes, editors);
    hide WritesOk, EditorsOk, AnswersOk;
  }

  lemma LoadStep(first: Row, s: State, id: nat, request: Request)
    requires Inv(first, s) && Enabled(s, Load(id, request))
    ensures Inv(first, Apply(s, Load(id, request)))
  {
    CurrentHappened(first, s.writes, s.row);
    var e := s.editors[id].(phase := Loaded(request, s.row));
    assert EditorOk(first, s.writes, s.editors[id]);
    EditorStep(first, s.writes, s.editors, id, e);
  }

  lemma CheckStep(first: Row, s: State, id: nat)
    requires Inv(first, s) && Enabled(s, Check(id))
    ensures Inv(first, Apply(s, Check(id)))
  {
    var e := Apply(s, Check(id)).editors[id];
    assert EditorOk(first, s.writes, s.editors[id]);
    hide Chained, History, Happened, Touches, StartsBehind, WroteBy, OneEach;
    EditorStep(first, s.writes, s.editors, id, e);
  }

  lemma CommitStep(first: Row, s: State, id: nat)
    requires Inv(first, s) && Enabled(s, Commit(id))
    ensures Inv(first, Apply(s, Commit(id)))
  {
    var p := s.editors[id].phase;
    assert EditorOk(first, s.writes, s.editors[id]);
    var (row, status) := Flushed(s.row, p.loaded, p.request);
    var e := s.editors[id].(phase := Answered(p.request, status));
    CurrentHappened(first, s.writes, s.row);
    if row == s.row {
      assert AnswerOk(s.writes, id, e);
      hide Chained, History, Happened, Touches, StartsBehind, WroteBy, OneEach, Flushed, EditorsOk, WritesOk, AnswersOk;
      EditorStep(first, s.writes, s.editors, id, e);
    } else {
      VersionIdentifies(first, s.writes, s.row, p.loaded);
      CommitWrites(first, s, id, e, Write(id, s.row, row));
    }
  }

  lemma ChainGrows(first: Row, writes: seq<Write>, row: Row, w: Write)
    requires Chained(first, writes) && row == History(first, writes, |writes|)
    requires w.before == row && w.after.version == row.version + 1
    ensures Chained(first, writes + [w]) && w.after == History(first, writes + [w], |writes| + 1)
  {
    CurrentHappened(first, writes, row);
  }

  lemma WritesGrow(writes: seq<Write>, w: Write, editors: seq<Editor>)
    requires WritesOk(writes, editors) && WriteOk(w, editors) && OneEach(writes)
    requires forall i :: 0 <= i < |writes| ==> writes[i].editor != w.editor
    ensures WritesOk(writes + [w], editors) && OneEach(writes + [w])
  {
    hide WriteOk;
  }

  lemma CommitWrites(first: Row, s: State, id: nat, e: Editor, w: Write)
    requires Inv(first, s) && id < |s.editors| && !s.editors[id].phase.Answered? && e.seen == s.editors[id].seen
    requires e.phase.Answered? && e.phase.status == Saved && Touches(e.phase.request)
    requires !StartsBehind(e.phase.request, s.row) && w.editor == id && w.before == s.row
    requires w.after == Row(s.row.version + 1, s.row.fields + Changes(e.phase.request))
    requires e.seen.version <= s.row.version
    ensures Inv(first, State(w.after, s.editors[id := e], s.writes + [w]))
  {
    var writes, editors := s.writes + [w], s.editors[id := e];
    ChainGrows(first, s.writes, s.row, w);
    assert EditorsOk(first, writes, editors) by {
      HistoryGrows(first, s.writes, w, e.seen) by {
        assert EditorOk(first, s.writes, s.editors[id]);
      }
      EditorsGrow(first, s.writes, w, s.editors);
      EditorsSet(first, writes, s.editors, id, e);
    }
    hide Chained, History, EditorsOk;
    assert WriteOk(w, editors);
    assert WritesOk(writes, editors) && OneEach(writes) by {
      WritesSet(s.writes, s.editors, id, e);
      WritesGrow(s.writes, w, editors);
    }
    assert AnswersOk(writes, editors) by {
      assert writes[|s.writes|].editor == id;
      assert WroteBy(writes, id);
      AnswersGrow(s.writes, w, s.editors);
      AnswersSet(writes, s.editors, id, e);
    }
    hide *;
  }

  lemma {:induction false} RunInv(first: Row, steps: seq<Step>)
    ensures Inv(first, Run(first, steps))
  {
    if steps != [] {
      var front, step := steps[..|steps| - 1], steps[|steps| - 1];
      RunInv(first, front);
      var s := Run(first, front);
      hide Inv;
      if Enabled(s, step) {
        match step
        case Fetch => FetchStep(first, s);
        case Load(id, request) => LoadStep(first, s, id, request);
        case Check(id) => CheckStep(first, s, id);
        case Commit(id) => CommitStep(first, s, id);
      }
    }
  }

  // ---- what every run keeps ----

  /** A save that carries a version replaces the state with that version. If the version is the one of the state
      its editor read, it replaces exactly that state. */
  lemma NoLostUpdate(first: Row, steps: seq<Step>, i: nat)
    requires i < |Run(first, steps).writes|
    ensures var s := Run(first, steps);
            var w := s.writes[i];
            w.editor < |s.editors| && s.editors[w.editor].phase.Answered? &&
            var e := s.editors[w.editor];
            e.phase.status == Saved &&
            w.after == Row(w.before.version + 1, w.before.fields + Changes(e.phase.request)) &&
            e.seen.version <= w.before.version &&
            (Carried(e.phase.request).Some? ==> Carried(e.phase.request).value == w.before.version) &&
            (Carried(e.phase.request) == Some(e.seen.version) ==> w.before == e.seen)
  {
    var s := Run(first, steps);
    RunInv(first, steps);
    var w := s.writes[i];
    assert WriteOk(w, s.editors);
    var e := s.editors[w.editor];
    assert EditorOk(first, s.writes, e);
    assert w.before.version == first.version + i && Happened(first, s.writes, w.before);
    if Carried(e.phase.request) == Some(e.seen.version) {
      VersionIdentifies(first, s.writes, e.seen, w.before);
    }
  }

  /** The writes form one chain from the first state to the stored one, and no version comes twice. */
  lemma OneChainOfWrites(first: Row, steps: seq<Step>)
    ensures var s := Run(first, steps);
            s.row.version == first.version + |s.writes| &&
            (if s.writes == [] then s.row == first
             else s.writes[0].before == first && s.writes[|s.writes| - 1].after == s.row) &&
            (forall i :: 0 <= i < |s.writes| - 1 ==> s.writes[i].after == s.writes[i + 1].before) &&
            forall i, j :: 0 <= i < j < |s.writes| ==> s.writes[i].after.version < s.writes[j].after.version
  {
    RunInv(first, steps);
    hide Run, EditorsOk, WritesOk, AnswersOk, OneEach;
  }

  /** Each save answered with success and something to write made one write, and nothing else wrote. */
  lemma OneWritePerSave(first: Row, steps: seq<Step>, id: nat)
    requires id < |Run(first, steps).editors|
    ensures var s := Run(first, steps);
            var p := s.editors[id].phase;
            (WroteBy(s.writes, id) <==> p.Answered? && p.status == Saved && Touches(p.request)) &&
            forall i, j :: 0 <= i < j < |s.writes| ==> s.writes[i].editor != s.writes[j].editor
  {
    var s := Run(first, steps);
    RunInv(first, steps);
    assert AnswerOk(s.writes, id, s.editors[id]);
    if WroteBy(s.writes, id) {
      var i :| 0 <= i < |s.writes| && s.writes[i].editor == id;
      assert WriteOk(s.writes[i], s.editors);
    }
  }

  /** The first fields overwritten by the changes of each write in turn. */
  function Replayed(fields: Fields, writes: seq<Write>, editors: seq<Editor>): Fields
    requires forall i :: 0 <= i < |writes| ==>
               writes[i].editor < |editors| && editors[writes[i].editor].phase.Answered?
  {
    if writes == [] then fields else
    var last := writes[|writes| - 1];
    Replayed(fields, writes[..|writes| - 1], editors) + Changes(editors[last.editor].phase.request)
  }

  lemma WritesPrefix(first: Row, writes: seq<Write>, editors: seq<Editor>)
    requires writes != [] && Chained(first, writes) && WritesOk(writes, editors)
    ensures var n := |writes| - 1;
            Chained(first, writes[..n]) && WritesOk(writes[..n], editors) && WriteOk(writes[n], editors) &&
            writes[n].before == History(first, writes[..n], n)
  {
    var n := |writes| - 1;
    hide WriteOk;
    assert forall i :: 0 <= i < n ==> WriteOk(writes[..n][i], editors);
    assert forall i :: 0 <= i <= n ==> History(first, writes[..n], i) == History(first, writes, i);
  }

  lemma WriterAnswered(writes: seq<Write>, editors: seq<Editor>)
    requires WritesOk(writes, editors)
    ensures forall i :: 0 <= i < |writes| ==>
              writes[i].editor < |editors| && editors[writes[i].editor].phase.Answered?
  {
    assert forall i :: 0 <= i < |writes| ==> WriteOk(writes[i], editors);
    hide WritesOk, Touches, Changes, StartsBehind;
  }

  lemma {:induction false} ReplayedIs(first: Row, writes: seq<Write>, editors: seq<Editor>)
    requires Chained(first, writes) && WritesOk(writes, editors)
    requires forall i :: 0 <= i < |writes| ==>
               writes[i].editor < |editors| && editors[writes[i].editor].phase.Answered?
    ensures Replayed(first.fields, writes, editors) == History(first, writes, |writes|).fields
  {
    if writes != [] {
      WritesPrefix(first, writes, editors);
      hide Chained, WritesOk, Touches, Changes, StartsBehind;
      ReplayedIs(first, writes[..|writes| - 1], editors);
    }
  }

  /** The stored fields are the first ones with every successful save applied, in the order of the writes. */
  lemma NothingElseChangesTheRow(first: Row, steps: seq<Step>)
    ensures var s := Run(first, steps);
            (forall i :: 0 <= i < |s.writes| ==>
               s.writes[i].editor < |s.editors| && s.editors[s.writes[i].editor].phase.Answered?) &&
            s.row.fields == Replayed(first.fields, s.writes, s.editors)
  {
    RunInv(first, steps);
    WriterAnswered(Run(first, steps).writes, Run(first, steps).editors);
    ReplayedIs(first, Run(first, steps).writes, Run(first, steps).editors);
  }

  /** A conflict or an error leaves the row as it is. */
  lemma FailureLeavesRow(s: State, step: Step)
    requires Enabled(s, step) && !step.Fetch?
    requires var p := Apply(s, step).editors[step.id].phase; p.Answered? && p.status != Saved
    ensures Apply(s, step).row == s.row && Apply(s, step).writes == s.writes
  {
  }

  /** A save with the version its editor read is turned away by the version check exactly when the row it loaded is
      not the one read. */
  lemma CheckedIffUnchanged(first: Row, steps: seq<Step>, id: nat)
    requires Enabled(Run(first, steps), Check(id))
    requires var e := Run(first, steps).editors[id]; Carried(e.phase.request) == Some(e.seen.version)
    ensures var s := Run(first, steps);
            var e := s.editors[id];
            Apply(s, Check(id)).editors[id].phase ==
            if e.phase.loaded == e.seen then Checked(e.phase.request, e.seen) else Answered(e.phase.request, Conflict)
  {
    var s := Run(first, steps);
    RunInv(first, steps);
    var e := s.editors[id];
    assert EditorOk(first, s.writes, e);
    hide Inv, Run, Chained;
    if e.phase.loaded.version == e.seen.version {
      VersionIdentifies(first, s.writes, e.phase.loaded, e.seen);
    }
  }

  /** It is turned away by the commit exactly when the stored row is not the one read any more. */
  lemma SavedIffUnchanged(first: Row, steps: seq<Step>, id: nat)
    requires Enabled(Run(first, steps), Commit(id))
    requires var e := Run(first, steps).editors[id]; Carried(e.phase.request) == Some(e.seen.version)
    ensures var s := Run(first, steps);
            var e := s.editors[id];
            Apply(s, Commit(id)).editors[id].phase ==
            Answered(e.phase.request, if s.row == e.seen then Saved else Conflict)
  {
    var s := Run(first, steps);
    RunInv(first, steps);
    var e := s.editors[id];
    assert Happened(first, s.writes, e.seen) && e.phase.loaded.version == e.seen.version by {
      assert EditorOk(first, s.writes, e);
    }
    hide EditorsOk, EditorOk, WritesOk, AnswersOk, OneEach, Run;
    CurrentHappened(first, s.writes, s.row);
    hide Inv, Chained, Happened, History;
    if s.row.version == e.seen.version {
      VersionIdentifies(first, s.writes, s.row, e.seen);
    }
  }

  /** A whole request, with no other step in between. */
  function Serve(s: State, id: nat, request: Request): State
  {
    Apply(Apply(Apply(s, Load(id, request)), Check(id)), Commit(id))
  }

  /** A whole save of something, carrying no version or the stored one. */
  lemma ServeSaves(s: State, id: nat, request: Request)
    requires id < |s.editors| && s.editors[id].phase.Seen? && request.Edit? && request.fields != map[]
    requires request.version.None? || request.version.value == s.row.version
    ensures var after := Row(s.row.version + 1, s.row.fields + request.fields);
            Serve(s, id, request) == State(after, s.editors[id := Editor(s.editors[id].seen, Answered(request, Saved))],
                                           s.writes + [Write(id, s.row, after)])
  {
  }

  lemma TwoFetched(first: Row)
    ensures Run(first, [Fetch, Fetch]) == State(first, [Editor(first, Seen), Editor(first, Seen)], [])
  {
    RunStep(first, [], Fetch);
    RunStep(first, [Fetch], Fetch);
    assert [Fetch] + [Fetch] == [Fetch, Fetch] && [] + [Fetch] == [Fetch];
  }

  /** Two editors read the same state and save one after the other. Without a version the second save overwrites
      the first unseen; with one it is turned away. */
  lemma SecondSaver(first: Row, a: Fields, b: Fields, versioned: bool)
    requires a != map[] && b != map[]
    ensures var carried := if versioned then Some(first.version) else None;
            var one, two := Edit(carried, a), Edit(carried, b);
            var s := Serve(Serve(Run(first, [Fetch, Fetch]), 0, one), 1, two);
            |s.editors| == 2 && s.editors[1].seen == first && s.editors[0].phase == Answered(one, Saved) &&
            if versioned then s.editors[1].phase == Answered(two, Conflict) && s.row.fields == first.fields + a
            else s.editors[1].phase == Answered(two, Saved) && s.row.fields == first.fields + a + b
  {
    var carried := if versioned then Some(first.version) else None;
    var one, two := Edit(carried, a), Edit(carried, b);
    TwoFetched(first);
    hide Run;
    var s := Run(first, [Fetch, Fetch]);
    ServeSaves(s, 0, one);
    var t := Serve(s, 0, one);
    if versioned {
      assert Serve(t, 1, two).row == t.row && Serve(t, 1, two).editors[1].phase == Answered(two, Conflict);
    } else {
      hide Serve;
      ServeSaves(t, 1, two);
    }
  }
}
