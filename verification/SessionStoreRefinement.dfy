/** On ids made of safe characters the file store of memory/session_service.py is its map. */
module SessionStoreRefinement {
  import opened SnapshotLog
  import opened SessionStore
  import Text

  // ---------------------------------------------------------------------
  // Which chats share a file
  // ---------------------------------------------------------------------

  lemma NameInjective(t: string, id: string, t': string, id': string)
    requires IsType(t) && IsType(t')
    ensures t + "_" + id + ".jsonl" == t' + "_" + id' + ".jsonl" <==> t == t' && id == id'
  {
    var a, b := t + "_" + id + ".jsonl", t' + "_" + id' + ".jsonl";
    if a == b {
      assert t == t' by {
        assert a[0] == t[0] && b[0] == t'[0];
      }
      var n := |t| + 1;
      assert a[n..|a| - 6] == id && b[n..|b| - 6] == id';
    }
  }

  /** Two chats share a file exactly when their sanitized type, id and character are the same. */
  lemma SharedPathIff(cfg: Config, id: string, t: string, ch: string, id': string, t': string, ch': string)
    requires PathFor(cfg, id, t, ch).Ok? && PathFor(cfg, id', t', ch').Ok?
    ensures PathFor(cfg, id, t, ch) == PathFor(cfg, id', t', ch')
       <==> TypeOf(t) == TypeOf(t') && cfg.Safe(id) == cfg.Safe(id') && cfg.Resolve(ch) == cfg.Resolve(ch')
  {
    hide TypeOf;
    NameInjective(TypeOf(t), cfg.Safe(id), TypeOf(t'), cfg.Safe(id'));
  }

  lemma {:induction false} SafeIdempotent(cfg: Config, s: string)
    ensures cfg.Safe(cfg.Safe(s)) == cfg.Safe(s)
  {
    if s != "" {
      SafeIdempotent(cfg, s[1..]);
      var rest := cfg.Safe(s[1..]);
      if cfg.SafeChar(s[0]) {
        assert ([s[0]] + rest)[1..] == rest;
      } else {
        assert "" + rest == rest;
      }
    }
  }

  /** The filter keeps a name as it is exactly if it has letters, digits, hyphens and underscores only. */
  lemma {:induction false} SafeIff(cfg: Config, s: string)
    ensures |cfg.Safe(s)| <= |s|
    ensures cfg.Safe(s) == s <==> forall c <- s :: cfg.alnum(c) || c == '-' || c == '_'
  {
    if s != "" {
      SafeIff(cfg, s[1..]);
      assert s == [s[0]] + s[1..];
      var rest := cfg.Safe(s[1..]);
      if cfg.SafeChar(s[0]) {
        assert ([s[0]] + rest)[1..] == rest;
      } else {
        assert s[0] in s;
      }
    }
  }

  lemma ResolveIdempotent(cfg: Config, s: string)
    ensures cfg.Resolve(cfg.Resolve(s)) == cfg.Resolve(s)
  {
    SafeIdempotent(cfg, s);
  }

  /** Names the file system keeps as they are. */
  predicate SafeChat(cfg: Config, id: string, t: string) {
    IsType(t) && id != "" && cfg.Safe(id) == id
  }

  lemma TypeIsItself(t: string)
    requires IsType(t)
    ensures TypeOf(t) == t
  {
    TypeLetters(t);
    assert TypeOf(t) == Text.Lower(Text.Strip(t)) by {
      hide Text.Lower, Text.Strip;
    }
    hide *;
    Text.StripOfStripped(t);
    LowerIsItself(t);
  }

  lemma TypeLetters(t: string)
    requires IsType(t)
    ensures Text.Stripped(t) && forall i :: 0 <= i < |t| ==> 'a' <= t[i] <= 'z'
  {}

  lemma {:induction false} LowerIsItself(s: string)
    requires forall i :: 0 <= i < |s| ==> 'a' <= s[i] <= 'z'
    ensures Text.Lower(s) == s
  {
    if s != "" {
      LowerIsItself(s[1..]);
    }
  }

  /** For such chats, sharing a file is sharing the map's key. */
  lemma SafeChatsSharePathIff(cfg: Config, id: string, t: string, ch: string, id': string, t': string, ch': string)
    requires SafeChat(cfg, id, t) && SafeChat(cfg, id', t')
    ensures PathFor(cfg, id, t, ch).Ok? && PathFor(cfg, id', t', ch').Ok?
    ensures PathFor(cfg, id, t, ch) == PathFor(cfg, id', t', ch')
       <==> KeyFor(cfg, id, t, ch) == KeyFor(cfg, id', t', ch')
  {
    TypeIsItself(t);
    TypeIsItself(t');
    SharedPathIff(cfg, id, t, ch, id', t', ch');
  }

  // ---------------------------------------------------------------------
  // The refinement
  // ---------------------------------------------------------------------

  datatype Op =
    | Save(session: Session)
    | Append(launcherId: string, launcherType: string, line: string, characterId: string)

  predicate SafeOp(cfg: Config, op: Op) {
    match op
    case Save(s) => SafeChat(cfg, s.launcherId, s.launcherType)
    case Append(id, t, _, _) => SafeChat(cfg, id, t)
  }

  function OnFiles(cfg: Config, c: Codec<Session>, files: Files, op: Op): Files {
    match op
    case Save(s) => SaveFile(cfg, c, files, s)
    case Append(id, t, line, ch) => AppendFile(cfg, c, files, id, t, line, ch)
  }

  function OnMap(cfg: Config, m: Sessions, op: Op): Sessions {
    match op
    case Save(s) => SaveMap(cfg, m, s)
    case Append(id, t, line, ch) => AppendMap(cfg, m, id, t, line, ch)
  }

  function FilesAfter(cfg: Config, c: Codec<Session>, ops: seq<Op>, n: nat): Files
    requires n <= |ops|
  {
    if n == 0 then map[] else OnFiles(cfg, c, FilesAfter(cfg, c, ops, n - 1), ops[n - 1])
  }

  function MapAfter(cfg: Config, ops: seq<Op>, n: nat): Sessions
    requires n <= |ops|
  {
    if n == 0 then map[] else OnMap(cfg, MapAfter(cfg, ops, n - 1), ops[n - 1])
  }

  /** Sessions are entered under their own names. */
  ghost predicate WellKeyed(cfg: Config, m: Sessions) {
    forall key <- m :: KeyFor(cfg, m[key].launcherId, m[key].launcherType, m[key].characterId) == key
  }

  predicate Same(cfg: Config, c: Codec<Session>, files: Files, m: Sessions, id: string, t: string, ch: string) {
    LoadFile(cfg, c, files, id, t, ch) == Ok(LoadMap(cfg, m, id, t, ch))
  }

  ghost predicate Agree(cfg: Config, c: Codec<Session>, files: Files, m: Sessions) {
    && WellKeyed(cfg, m)
    && forall id, t, ch | SafeChat(cfg, id, t) :: Same(cfg, c, files, m, id, t, ch)
  }

  lemma LoadAfterSaveFile(cfg: Config, c: Codec<Session>, files: Files, s: Session, id: string, t: string, ch: string)
    requires Lawful(c) && PathFor(cfg, s.launcherId, s.launcherType, s.characterId).Ok? && PathFor(cfg, id, t, ch).Ok?
    ensures LoadFile(cfg, c, SaveFile(cfg, c, files, s), id, t, ch)
         == if PathFor(cfg, s.launcherId, s.launcherType, s.characterId) == PathFor(cfg, id, t, ch)
            then Ok(Resolved(cfg, s)) else LoadFile(cfg, c, files, id, t, ch)
  {
    hide Load, Saved, Faithful, PathFor;
    var path := PathFor(cfg, s.launcherId, s.launcherType, s.characterId).value;
    assert Faithful(c, Resolved(cfg, s));
    SavedIsFound(c, Content(files, path), Resolved(cfg, s), COMPACT_THRESHOLD);
  }

  lemma LoadAfterSaveMap(cfg: Config, m: Sessions, s: Session, id: string, t: string, ch: string)
    ensures LoadMap(cfg, SaveMap(cfg, m, s), id, t, ch)
         == if KeyFor(cfg, s.launcherId, s.launcherType, s.characterId) == KeyFor(cfg, id, t, ch)
            then Resolved(cfg, s) else LoadMap(cfg, m, id, t, ch)
  {}

  lemma SaveSame(cfg: Config, c: Codec<Session>, files: Files, m: Sessions, s: Session, id: string, t: string,
                 ch: string)
    requires Lawful(c) && Same(cfg, c, files, m, id, t, ch)
    requires SafeChat(cfg, s.launcherId, s.launcherType) && SafeChat(cfg, id, t)
    ensures Same(cfg, c, SaveFile(cfg, c, files, s), SaveMap(cfg, m, s), id, t, ch)
  {
    hide LoadFile, SaveFile, LoadMap, SaveMap, KeyFor, PathFor;
    SafeChatsSharePathIff(cfg, s.launcherId, s.launcherType, s.characterId, id, t, ch);
    LoadAfterSaveFile(cfg, c, files, s, id, t, ch);
    LoadAfterSaveMap(cfg, m, s, id, t, ch);
  }

  lemma SaveAgrees(cfg: Config, c: Codec<Session>, files: Files, m: Sessions, s: Session)
    requires Lawful(c) && Agree(cfg, c, files, m) && SafeChat(cfg, s.launcherId, s.launcherType)
    ensures Agree(cfg, c, SaveFile(cfg, c, files, s), SaveMap(cfg, m, s))
  {
    hide Same, SaveFile, Lawful;
    forall id, t, ch | SafeChat(cfg, id, t)
      ensures Same(cfg, c, SaveFile(cfg, c, files, s), SaveMap(cfg, m, s), id, t, ch)
    {
      SaveSame(cfg, c, files, m, s, id, t, ch);
    }
    ResolveIdempotent(cfg, s.characterId);
  }

  /** Entering the fresh session a look-up returns changes no look-up. */
  lemma EnteredAgrees(cfg: Config, c: Codec<Session>, files: Files, m: Sessions, id: string, t: string, ch: string)
    requires Agree(cfg, c, files, m)
    ensures Agree(cfg, c, files, m[KeyFor(cfg, id, t, ch) := LoadMap(cfg, m, id, t, ch)])
  {
    hide LoadFile, SafeChat;
    var entered := m[KeyFor(cfg, id, t, ch) := LoadMap(cfg, m, id, t, ch)];
    forall id', t', ch' | SafeChat(cfg, id', t')
      ensures Same(cfg, c, files, entered, id', t', ch')
    {
      assert Same(cfg, c, files, m, id', t', ch');
    }
    ResolveIdempotent(cfg, ch);
  }

  lemma OpAgrees(cfg: Config, c: Codec<Session>, files: Files, m: Sessions, op: Op)
    requires Lawful(c) && Agree(cfg, c, files, m) && SafeOp(cfg, op)
    ensures Agree(cfg, c, OnFiles(cfg, c, files, op), OnMap(cfg, m, op))
  {
    match op
    case Save(s) => SaveAgrees(cfg, c, files, m, s);
    case Append(id, t, line, ch) =>
      assert Same(cfg, c, files, m, id, t, ch);
      var s := LoadMap(cfg, m, id, t, ch);
      assert s.launcherId == id && s.launcherType == t;
      EnteredAgrees(cfg, c, files, m, id, t, ch);
      var entered := m[KeyFor(cfg, id, t, ch) := s];
      SaveAgrees(cfg, c, files, entered, WithLine(s, line));
  }

  /**
   * Without crashes, after any run of saves and appends to chats with safe names, loading any such
   * chat from disk gives the session the map holds for it.
   */
  lemma {:induction false} FilesRefineMap(cfg: Config, c: Codec<Session>, ops: seq<Op>, n: nat)
    requires Lawful(c) && n <= |ops| && forall op <- ops :: SafeOp(cfg, op)
    ensures Agree(cfg, c, FilesAfter(cfg, c, ops, n), MapAfter(cfg, ops, n))
  {
    hide Agree, OnFiles, OnMap, SafeOp;
    if n > 0 {
      FilesRefineMap(cfg, c, ops, n - 1);
      assert SafeOp(cfg, ops[n - 1]);
      OpAgrees(cfg, c, FilesAfter(cfg, c, ops, n - 1), MapAfter(cfg, ops, n - 1), ops[n - 1]);
    } else {
      EmptyAgrees(cfg, c);
    }
  }

  lemma EmptyAgrees(cfg: Config, c: Codec<Session>)
    ensures Agree(cfg, c, map[], map[])
  {
    forall id, t, ch | SafeChat(cfg, id, t)
      ensures Same(cfg, c, map[], map[], id, t, ch)
    {
      SafeChatsSharePathIff(cfg, id, t, ch, id, t, ch);
      EmptyIsMissing(c);
    }
  }

  /** Two names that differ only in unsafe characters are one chat on disk and two in the map. */
  lemma UnsafeNamesCollide(cfg: Config, c: Codec<Session>, s: Session, other: string)
    requires Lawful(c) && IsType(s.launcherType) && cfg.Safe(s.launcherId) != ""
    requires other != s.launcherId && cfg.Safe(other) == cfg.Safe(s.launcherId)
    ensures LoadFile(cfg, c, SaveFile(cfg, c, map[], s), other, s.launcherType, s.characterId) == Ok(Resolved(cfg, s))
    ensures LoadMap(cfg, SaveMap(cfg, map[], s), other, s.launcherType, s.characterId)
         == Fresh(other, s.launcherType, cfg.Resolve(s.characterId))
  {
    hide Load, Saved, Faithful;
    TypeIsItself(s.launcherType);
    assert Faithful(c, Resolved(cfg, s));
    SavedIsFound(c, [], Resolved(cfg, s), COMPACT_THRESHOLD);
  }
}
