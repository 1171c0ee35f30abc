/** The stores of memory/session_service.py: one snapshot log per chat on disk, and the map it stands for. */
module SessionStore {
  import opened Common
  import opened SnapshotLog
  import Text

  const HISTORY_LIMIT: nat := 120
  const COMPACT_THRESHOLD: nat := 262144

  datatype Session = Session(launcherId: string, launcherType: string, characterId: string, history: seq<string>,
                             preferredName: string, metadata: map<string, string>)

  function Fresh(launcherId: string, launcherType: string, characterId: string): Session {
    Session(launcherId, launcherType, characterId, [], "", map[])
  }

  function WithLine(s: Session, line: string): Session {
    s.(history := LastN(s.history + [line], HISTORY_LIMIT))
  }

  /** `alnum` is `str.isalnum`; `scope` is the character id the store is bound to, "" for none. */
  datatype Config = Config(alnum: char -> bool, scope: string) {
    predicate SafeChar(c: char) {
      alnum(c) || c == '-' || c == '_'
    }

    /** `_sanitize_character_id` and the filter of `_sanitize_launcher_id`. */
    function Safe(s: string): string {
      if s == "" then "" else (if SafeChar(s[0]) then [s[0]] else "") + Safe(s[1..])
    }

    function Resolve(characterId: string): string {
      if Safe(scope) != "" then Safe(scope) else Safe(characterId)
    }
  }

  datatype Error = BadType | BadId | NoValidSnapshot

  datatype Result<+T> = Ok(value: T) | Err(error: Error)

  datatype Path = Path(directory: string, name: string)

  predicate IsType(t: string) {
    t == "group" || t == "person"
  }

  function TypeOf(launcherType: string): string {
    Text.Lower(Text.Strip(launcherType))
  }

  function Directory(cfg: Config, characterId: string): string {
    if cfg.Safe(cfg.scope) != "" then "" else cfg.Resolve(characterId)
  }

  /** `_session_path`; the checks come in the source's order. */
  function PathFor(cfg: Config, launcherId: string, launcherType: string, characterId: string): Result<Path> {
    if !IsType(TypeOf(launcherType)) then Err(BadType)
    else if cfg.Safe(launcherId) == "" then Err(BadId)
    else Ok(Path(Directory(cfg, characterId), TypeOf(launcherType) + "_" + cfg.Safe(launcherId) + ".jsonl"))
  }

  type Files = map<Path, Bytes>

  function Content(files: Files, path: Path): Bytes {
    if path in files then files[path] else []
  }

  function LoadFile(cfg: Config, c: Codec<Session>, files: Files, launcherId: string, launcherType: string,
                    characterId: string): Result<Session>
  {
    match PathFor(cfg, launcherId, launcherType, characterId)
    case Err(e) => Err(e)
    case Ok(path) =>
      match Load(c, Content(files, path))
      case Found(s) => Ok(s)
      case Missing => Ok(Fresh(launcherId, launcherType, cfg.Resolve(characterId)))
      case Corrupt => Err(NoValidSnapshot)
  }

  function Resolved(cfg: Config, s: Session): Session {
    s.(characterId := cfg.Resolve(s.characterId))
  }

  /** The files after `save`, unchanged when the chat has no path. */
  function SaveFile(cfg: Config, c: Codec<Session>, files: Files, session: Session): Files {
    match PathFor(cfg, session.launcherId, session.launcherType, session.characterId)
    case Err(_) => files
    case Ok(path) => files[path := Saved(c, Content(files, path), Resolved(cfg, session), COMPACT_THRESHOLD)]
  }

  function SaveResult(cfg: Config, session: Session): Result<Session> {
    match PathFor(cfg, session.launcherId, session.launcherType, session.characterId)
    case Err(e) => Err(e)
    case Ok(_) => Ok(Resolved(cfg, session))
  }

  class FileMemoryStore {
    const cfg: Config
    const codec: Codec<Session>
    var files: Files

    constructor (cfg: Config, codec: Codec<Session>)
      ensures this.cfg == cfg && this.codec == codec && files == map[]
    {
      this.cfg, this.codec, files := cfg, codec, map[];
    }

    method Load(launcherId: string, launcherType: string, characterId: string) returns (r: Result<Session>)
      ensures r == LoadFile(cfg, codec, files, launcherId, launcherType, characterId)
    {
      var path := PathFor(cfg, launcherId, launcherType, characterId);
      if path.Err? {
        return Err(path.error);
      }
      var loaded := LoadLatest(codec, Content(files, path.value));
      match loaded {
        case Found(s) => return Ok(s);
        case Missing => return Ok(Fresh(launcherId, launcherType, cfg.Resolve(characterId)));
        case Corrupt => return Err(NoValidSnapshot);
      }
    }

    method Save(session: Session) returns (r: Result<Session>)
      modifies this`files
      ensures files == SaveFile(cfg, codec, old(files), session)
      ensures r == SaveResult(cfg, session)
    {
      hide PathFor, Grown;
      var path := PathFor(cfg, session.launcherId, session.launcherType, session.characterId);
      if path.Err? {
        return Err(path.error);
      }
      var resolved := session.(characterId := cfg.Resolve(session.characterId));
      AppendSnapshot(path.value, resolved);
      MaybeCompact(path.value, resolved);
      return Ok(resolved);
    }

    method AppendSnapshot(path: Path, session: Session)
      modifies this`files
      ensures files == old(files)[path := Grown(codec, Content(old(files), path), session)]
    {
      var handle := Content(files, path);
      if |handle| > 0 && handle[|handle| - 1] != LF {
        handle := handle + [LF];
      }
      handle := handle + (codec.encode(session) + [LF]);
      files := files[path := handle];
      ghost var before := Content(old(files), path);
      assert handle == before + Record(codec, before, session);
    }

    method MaybeCompact(path: Path, session: Session)
      requires path in files
      modifies this`files
      ensures files == if |old(files)[path]| <= COMPACT_THRESHOLD then old(files)
                       else old(files)[path := codec.encode(session) + [LF]]
    {
      if |files[path]| <= COMPACT_THRESHOLD {
        return;
      }
      files := files[path := codec.encode(session) + [LF]];
    }

    method Append(launcherId: string, launcherType: string, line: string, characterId: string)
      returns (r: Result<Session>)
      modifies this`files
      ensures files == AppendFile(cfg, codec, old(files), launcherId, launcherType, line, characterId)
      ensures r == match LoadFile(cfg, codec, old(files), launcherId, launcherType, characterId)
                   case Err(e) => Err(e)
                   case Ok(s) => SaveResult(cfg, WithLine(s, line))
    {
      hide PathFor, SaveFile, LoadFile, SaveResult;
      var loaded := Load(launcherId, launcherType, characterId);
      if loaded.Err? {
        return loaded;
      }
      var session := loaded.value.(history := loaded.value.history + [line]);
      session := session.(history := LastN(session.history, HISTORY_LIMIT));
      r := Save(session);
    }
  }

  function AppendFile(cfg: Config, c: Codec<Session>, files: Files, launcherId: string, launcherType: string,
                      line: string, characterId: string): Files
  {
    match LoadFile(cfg, c, files, launcherId, launcherType, characterId)
    case Err(_) => files
    case Ok(s) => SaveFile(cfg, c, files, WithLine(s, line))
  }

  // ---------------------------------------------------------------------
  // The map
  // ---------------------------------------------------------------------

  datatype Key = Key(characterId: string, launcherId: string, launcherType: string)

  type Sessions = map<Key, Session>

  function KeyFor(cfg: Config, launcherId: string, launcherType: string, characterId: string): Key {
    Key(cfg.Resolve(characterId), launcherId, launcherType)
  }

  function LoadMap(cfg: Config, m: Sessions, launcherId: string, launcherType: string, characterId: string): Session {
    var key := KeyFor(cfg, launcherId, launcherType, characterId);
    if key in m then m[key] else Fresh(launcherId, launcherType, cfg.Resolve(characterId))
  }

  function SaveMap(cfg: Config, m: Sessions, session: Session): Sessions {
    m[KeyFor(cfg, session.launcherId, session.launcherType, session.characterId) := Resolved(cfg, session)]
  }

  function AppendMap(cfg: Config, m: Sessions, launcherId: string, launcherType: string, line: string,
                     characterId: string): Sessions
  {
    var s := LoadMap(cfg, m, launcherId, launcherType, characterId);
    SaveMap(cfg, m[KeyFor(cfg, launcherId, launcherType, characterId) := s], WithLine(s, line))
  }

  class InMemoryStore {
    const cfg: Config
    var sessions: Sessions

    constructor (cfg: Config)
      ensures this.cfg == cfg && sessions == map[]
    {
      this.cfg, sessions := cfg, map[];
    }

    /** Looking a chat up for the first time also enters it. */
    method Load(launcherId: string, launcherType: string, characterId: string) returns (r: Session)
      modifies this`sessions
      ensures r == LoadMap(cfg, old(sessions), launcherId, launcherType, characterId)
      ensures sessions == old(sessions)[KeyFor(cfg, launcherId, launcherType, characterId) := r]
    {
      var key := KeyFor(cfg, launcherId, launcherType, characterId);
      if key !in sessions {
        sessions := sessions[key := Fresh(launcherId, launcherType, cfg.Resolve(characterId))];
      }
      return sessions[key];
    }

    method Save(session: Session) returns (r: Session)
      modifies this`sessions
      ensures sessions == SaveMap(cfg, old(sessions), session) && r == Resolved(cfg, session)
    {
      r := session.(characterId := cfg.Resolve(session.characterId));
      sessions := sessions[Key(r.characterId, r.launcherId, r.launcherType) := r];
    }

    method Append(launcherId: string, launcherType: string, line: string, characterId: string) returns (r: Session)
      modifies this`sessions
      ensures sessions == AppendMap(cfg, old(sessions), launcherId, launcherType, line, characterId)
      ensures r == Resolved(cfg, WithLine(LoadMap(cfg, old(sessions), launcherId, launcherType, characterId), line))
    {
      var session := Load(launcherId, launcherType, characterId);
      session := session.(history := session.history + [line]);
      session := session.(history := LastN(session.history, HISTORY_LIMIT));
      r := Save(session);
    }
  }
}
