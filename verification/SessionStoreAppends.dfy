/** What appending lines to the stores of memory/session_service.py comes to. */
module SessionStoreAppends {
  import opened SnapshotLog
  import opened SessionStore
  import opened SessionStoreRefinement

  // ---------------------------------------------------------------------
  // One append
  // ---------------------------------------------------------------------

  /** Every file holds a session of a chat that is kept in that file, under its resolved character. */
  ghost predicate OwnFiles(cfg: Config, c: Codec<Session>, files: Files) {
    forall path <- files :: HoldsOwn(cfg, c, files, path)
  }

  predicate HoldsOwn(cfg: Config, c: Codec<Session>, files: Files, path: Path)
    requires path in files
  {
    match SnapshotLog.Load(c, files[path])
    case Found(s) =>
      && PathFor(cfg, s.launcherId, s.launcherType, s.characterId) == SessionStore.Result.Ok(path)
      && Resolved(cfg, s) == s
    case _ => true
  }

  lemma ResolvedHasSamePath(cfg: Config, id: string, t: string, ch: string)
    ensures PathFor(cfg, id, t, cfg.Resolve(ch)) == PathFor(cfg, id, t, ch)
  {
    ResolveIdempotent(cfg, ch);
    hide TypeOf;
  }

  lemma SaveKeepsOwnFiles(cfg: Config, c: Codec<Session>, files: Files, s: Session)
    requires Lawful(c) && OwnFiles(cfg, c, files)
    ensures OwnFiles(cfg, c, SaveFile(cfg, c, files, s))
  {
    hide SnapshotLog.Load, Saved, Faithful, PathFor;
    var path := PathFor(cfg, s.launcherId, s.launcherType, s.characterId);
    var after := SaveFile(cfg, c, files, s);
    if path.Ok? {
      assert Faithful(c, Resolved(cfg, s));
      SavedIsFound(c, Content(files, path.value), Resolved(cfg, s), COMPACT_THRESHOLD);
      ResolvedHasSamePath(cfg, s.launcherId, s.launcherType, s.characterId);
      ResolveIdempotent(cfg, s.characterId);
      forall other | other in after
        ensures HoldsOwn(cfg, c, after, other)
      {
        assert other != path.value ==> HoldsOwn(cfg, c, files, other);
      }
    }
  }

  /** What is loaded is a session kept in the same file. */
  lemma LoadedIsOwn(cfg: Config, c: Codec<Session>, files: Files, id: string, t: string, ch: string)
    requires OwnFiles(cfg, c, files) && LoadFile(cfg, c, files, id, t, ch).Ok?
    ensures var s := LoadFile(cfg, c, files, id, t, ch).value;
            && PathFor(cfg, s.launcherId, s.launcherType, s.characterId) == PathFor(cfg, id, t, ch)
            && Resolved(cfg, s) == s
  {
    var path := PathFor(cfg, id, t, ch).value;
    assert path in files ==> HoldsOwn(cfg, c, files, path);
    ResolvedHasSamePath(cfg, id, t, ch);
    ResolveIdempotent(cfg, ch);
    EmptyIsMissing(c);
    hide PathFor, SnapshotLog.Load;
  }

  /**
   * After an append the chat loads with the line last: behind all lines if there were fewer than
   * 120, else behind the newest 119. Nothing else of it changes.
   */
  lemma AppendAdds(cfg: Config, c: Codec<Session>, files: Files, id: string, t: string, line: string,
                   ch: string, s: Session)
    requires Lawful(c) && OwnFiles(cfg, c, files) && LoadFile(cfg, c, files, id, t, ch) == SessionStore.Result.Ok(s)
    ensures var lines := if |s.history| < 120 then s.history + [line] else s.history[|s.history| - 119..] + [line];
            LoadFile(cfg, c, AppendFile(cfg, c, files, id, t, line, ch), id, t, ch)
              == SessionStore.Result.Ok(s.(history := lines))
  {
    LoadedIsOwn(cfg, c, files, id, t, ch);
    NewestLines(s, line);
    hide LoadFile, SaveFile, PathFor, WithLine;
    LoadAfterSaveFile(cfg, c, files, WithLine(s, line), id, t, ch);
  }

  lemma NewestLines(s: Session, line: string)
    ensures WithLine(s, line)
         == s.(history := if |s.history| < 120 then s.history + [line] else s.history[|s.history| - 119..] + [line])
  {
    var all := s.history + [line];
    if |s.history| >= 120 {
      assert all[|all| - 120..] == s.history[|s.history| - 119..] + [line];
    }
  }

  // ---------------------------------------------------------------------
  // Runs of appends
  // ---------------------------------------------------------------------

  /** The lines appended to the chats of one file, in order. */
  function LinesTo(cfg: Config, ops: seq<Op>, n: nat, path: Path): seq<string>
    requires n <= |ops|
  {
    if n == 0 then []
    else
      var op := ops[n - 1];
      LinesTo(cfg, ops, n - 1, path)
      + if op.Append? && PathFor(cfg, op.launcherId, op.launcherType, op.characterId) == SessionStore.Result.Ok(path)
        then [op.line] else []
  }

  function Newest(lines: seq<string>): seq<string> {
    if |lines| <= 120 then lines else lines[|lines| - 120..]
  }

  lemma OpKeepsOwnFiles(cfg: Config, c: Codec<Session>, files: Files, op: Op)
    requires Lawful(c) && OwnFiles(cfg, c, files)
    ensures OwnFiles(cfg, c, OnFiles(cfg, c, files, op))
  {
    hide OwnFiles, SaveFile, LoadFile, WithLine, Lawful;
    match op
    case Save(s) => SaveKeepsOwnFiles(cfg, c, files, s);
    case Append(id, t, line, ch) =>
      var loaded := LoadFile(cfg, c, files, id, t, ch);
      if loaded.Ok? {
        SaveKeepsOwnFiles(cfg, c, files, WithLine(loaded.value, line));
      }
  }

  lemma NoFilesAreOwn(cfg: Config, c: Codec<Session>)
    ensures OwnFiles(cfg, c, map[])
  {
    hide HoldsOwn;
  }

  lemma {:induction false} RunKeepsOwnFiles(cfg: Config, c: Codec<Session>, ops: seq<Op>, n: nat)
    requires Lawful(c) && n <= |ops|
    ensures OwnFiles(cfg, c, FilesAfter(cfg, c, ops, n))
  {
    hide OwnFiles, OnFiles, Lawful;
    if n > 0 {
      RunKeepsOwnFiles(cfg, c, ops, n - 1);
      OpKeepsOwnFiles(cfg, c, FilesAfter(cfg, c, ops, n - 1), ops[n - 1]);
    } else {
      NoFilesAreOwn(cfg, c);
    }
  }

  /** After any run of appends, to whatever chats, a chat loads with the newest 120 of its lines in their order. */
  lemma {:induction false} AppendsAreKept(cfg: Config, c: Codec<Session>, ops: seq<Op>, n: nat, id: string, t: string,
                                          ch: string)
    requires Lawful(c) && n <= |ops| && (forall op <- ops :: op.Append?) && PathFor(cfg, id, t, ch).Ok?
    ensures var r := LoadFile(cfg, c, FilesAfter(cfg, c, ops, n), id, t, ch);
            r.Ok? && r.value.history == Newest(LinesTo(cfg, ops, n, PathFor(cfg, id, t, ch).value))
  {
    hide PathFor, LoadFile, OwnFiles, Lawful, OnFiles, Newest;
    var path := PathFor(cfg, id, t, ch).value;
    if n == 0 {
      NothingAppended(cfg, c, id, t, ch);
    } else {
      AppendsAreKept(cfg, c, ops, n - 1, id, t, ch);
      RunKeepsOwnFiles(cfg, c, ops, n - 1);
      AppendSeen(cfg, c, FilesAfter(cfg, c, ops, n - 1), ops[n - 1], id, t, ch, LinesTo(cfg, ops, n - 1, path));
    }
  }

  lemma NothingAppended(cfg: Config, c: Codec<Session>, id: string, t: string, ch: string)
    requires PathFor(cfg, id, t, ch).Ok?
    ensures LoadFile(cfg, c, map[], id, t, ch).Ok?
    ensures LoadFile(cfg, c, map[], id, t, ch).value.history == Newest([])
  {
    EmptyIsMissing(c);
    hide PathFor;
  }

  lemma AppendSeen(cfg: Config, c: Codec<Session>, files: Files, op: Op, id: string, t: string, ch: string,
                   lines: seq<string>)
    requires Lawful(c) && OwnFiles(cfg, c, files) && op.Append? && PathFor(cfg, id, t, ch).Ok?
    requires LoadFile(cfg, c, files, id, t, ch).Ok? && LoadFile(cfg, c, files, id, t, ch).value.history == Newest(lines)
    ensures var r := LoadFile(cfg, c, OnFiles(cfg, c, files, op), id, t, ch);
            var same := PathFor(cfg, op.launcherId, op.launcherType, op.characterId) == PathFor(cfg, id, t, ch);
            r.Ok? && r.value.history == Newest(lines + if same then [op.line] else [])
  {
    var loaded := LoadFile(cfg, c, files, op.launcherId, op.launcherType, op.characterId);
    assert lines + [] == lines;
    if PathFor(cfg, op.launcherId, op.launcherType, op.characterId) == PathFor(cfg, id, t, ch) {
      SameFileSameHistory(cfg, c, files, op, id, t, ch);
      AppendAdds(cfg, c, files, op.launcherId, op.launcherType, op.line, op.characterId, loaded.value);
      SameFileSameHistory(cfg, c, OnFiles(cfg, c, files, op), op, id, t, ch);
      hide LoadFile, PathFor, OwnFiles, OnFiles;
      NewestSnoc(lines, op.line);
    } else if loaded.Ok? {
      LoadedIsOwn(cfg, c, files, op.launcherId, op.launcherType, op.characterId);
      hide LoadFile, PathFor, OwnFiles, SaveFile;
      LoadAfterSaveFile(cfg, c, files, WithLine(loaded.value, op.line), id, t, ch);
    }
  }

  lemma SameFileSameHistory(cfg: Config, c: Codec<Session>, files: Files, op: Op, id: string, t: string, ch: string)
    requires op.Append? && PathFor(cfg, op.launcherId, op.launcherType, op.characterId) == PathFor(cfg, id, t, ch)
    requires PathFor(cfg, id, t, ch).Ok?
    ensures var a := LoadFile(cfg, c, files, op.launcherId, op.launcherType, op.characterId);
            var b := LoadFile(cfg, c, files, id, t, ch);
            (a.Ok? <==> b.Ok?) && (a.Ok? ==> a.value.history == b.value.history)
  {
    hide PathFor, SnapshotLog.Load;
  }

  lemma NewestSnoc(lines: seq<string>, line: string)
    ensures Newest(lines + [line])
         == var newest := Newest(lines);
            if |newest| < 120 then newest + [line] else newest[|newest| - 119..] + [line]
  {
    var all := lines + [line];
    if |lines| >= 120 {
      assert all[|all| - 120..] == lines[|lines| - 119..] + [line];
    }
  }

  /** And so does the map, for chats with safe names. */
  lemma MapKeepsAppends(cfg: Config, c: Codec<Session>, ops: seq<Op>, n: nat, id: string, t: string, ch: string)
    requires Lawful(c) && n <= |ops| && (forall op <- ops :: op.Append? && SafeOp(cfg, op)) && SafeChat(cfg, id, t)
    requires PathFor(cfg, id, t, ch).Ok?
    ensures LoadMap(cfg, MapAfter(cfg, ops, n), id, t, ch).history
         == Newest(LinesTo(cfg, ops, n, PathFor(cfg, id, t, ch).value))
  {
    hide LoadMap, LoadFile, PathFor, FilesAfter, MapAfter, LinesTo, SafeChat, SafeOp;
    AppendsAreKept(cfg, c, ops, n, id, t, ch);
    FilesRefineMap(cfg, c, ops, n);
    assert Same(cfg, c, FilesAfter(cfg, c, ops, n), MapAfter(cfg, ops, n), id, t, ch);
  }
}
