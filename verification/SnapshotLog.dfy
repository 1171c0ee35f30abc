/** The append-only snapshot file of memory/session_service.py. */
module SnapshotLog {
  import opened Common

  // Every save appends one line, a crash may cut the last one anywhere, and loading takes the
  // newest line that still decodes.

  newtype Byte = x: int | 0 <= x < 256

  type Bytes = seq<Byte>

  const LF: Byte := 10
  const CR: Byte := 13

  /** What `json.dumps` and `json.loads` are to a session; `None` is an exception. */
  datatype Codec<!S> = Codec(encode: S -> Bytes, decode: Bytes -> Option<S>)

  /** The whitespace `bytes.strip` removes. */
  predicate IsBlank(b: Byte) {
    b == 32 || 9 <= b <= 13
  }

  /** A record is one line without blank ends, decodes to what it encodes, and no part cut off its front does. */
  ghost predicate Faithful<S>(c: Codec<S>, s: S) {
    var e := c.encode(s);
    && |e| > 0 && LF !in e && CR !in e
    && !IsBlank(e[0]) && !IsBlank(e[|e| - 1])
    && c.decode(e) == Some(s)
    && forall k :: 0 <= k < |e| ==> c.decode(e[..k]) == None
  }

  ghost predicate Lawful<S(!new)>(c: Codec<S>) {
    forall s: S :: Faithful(c, s)
  }

  // ---------------------------------------------------------------------
  // Reading
  // ---------------------------------------------------------------------

  function LineEnd(b: Bytes): (n: nat)
    ensures n <= |b|
    ensures forall i :: 0 <= i < n ==> b[i] != LF && b[i] != CR
    ensures n < |b| ==> b[n] == LF || b[n] == CR
  {
    if b == [] || b[0] == LF || b[0] == CR then 0 else 1 + LineEnd(b[1..])
  }

  /** Where the line after the one ending at `n` starts: "\r\n" is one line break. */
  function NextLine(b: Bytes, n: nat): (r: nat)
    requires n < |b|
    ensures n < r <= |b|
  {
    if b[n] == CR && n + 1 < |b| && b[n + 1] == LF then n + 2 else n + 1
  }

  /** `bytes.splitlines`. */
  function Lines(b: Bytes): seq<Bytes>
    decreases |b|
  {
    if b == [] then []
    else
      var n := LineEnd(b);
      if n == |b| then [b] else [b[..n]] + Lines(b[NextLine(b, n)..])
  }

  function LStrip(b: Bytes): Bytes {
    if b != [] && IsBlank(b[0]) then LStrip(b[1..]) else b
  }

  function RStrip(b: Bytes): (r: Bytes)
    ensures r <= b
  {
    if b != [] && IsBlank(b[|b| - 1]) then RStrip(b[..|b| - 1]) else b
  }

  /** `bytes.strip`. */
  function Strip(b: Bytes): Bytes {
    RStrip(LStrip(b))
  }

  datatype Loaded<+S> = Found(session: S) | Missing | Corrupt

  /** A line that does not decode is passed over, but is not nothing. */
  function Over<S>(earlier: Loaded<S>): Loaded<S> {
    if earlier.Missing? then Corrupt else earlier
  }

  function Newest<S>(c: Codec<S>, lines: seq<Bytes>): Loaded<S> {
    if lines == [] then Missing
    else
      var earlier, line := lines[..|lines| - 1], Strip(lines[|lines| - 1]);
      if line == [] then Newest(c, earlier)
      else
        match c.decode(line)
        case Some(s) => Found(s)
        case None => Over(Newest(c, earlier))
  }

  function Load<S>(c: Codec<S>, file: Bytes): Loaded<S> {
    Newest(c, Lines(file))
  }

  /** `_load_latest_snapshot` on the file's bytes. */
  method LoadLatest<S>(c: Codec<S>, file: Bytes) returns (r: Loaded<S>)
    ensures r == Load(c, file)
  {
    var lines := Lines(file);
    var failed := false;
    var i := |lines|;
    assert lines[..i] == lines;
    while i > 0
      invariant 0 <= i <= |lines|
      invariant Load(c, file) == if failed then Over(Newest(c, lines[..i])) else Newest(c, lines[..i])
    {
      assert lines[..i][..i - 1] == lines[..i - 1];
      i := i - 1;
      var line := Strip(lines[i]);
      if line == [] {
        continue;
      }
      match c.decode(line) {
        case Some(s) => return Found(s);
        case None => failed := true;
      }
    }
    return if failed then Corrupt else Missing;
  }

  predicate AllBlank(b: Bytes) {
    forall i :: 0 <= i < |b| ==> IsBlank(b[i])
  }

  lemma {:induction false} LStripEmptyIff(b: Bytes)
    ensures LStrip(b) == [] <==> AllBlank(b)
    ensures LStrip(b) != [] ==> !IsBlank(LStrip(b)[0])
  {
    if b != [] && IsBlank(b[0]) {
      LStripEmptyIff(b[1..]);
      assert forall i :: 1 <= i < |b| ==> b[1..][i - 1] == b[i];
    }
  }

  lemma {:induction false} RStripEmpty(b: Bytes)
    requires b != [] && !IsBlank(b[0])
    ensures RStrip(b) != []
  {
    if IsBlank(b[|b| - 1]) {
      RStripEmpty(b[..|b| - 1]);
    }
  }

  lemma StripEmptyIff(b: Bytes)
    ensures Strip(b) == [] <==> AllBlank(b)
  {
    LStripEmptyIff(b);
    if LStrip(b) != [] {
      RStripEmpty(LStrip(b));
    }
  }

  predicate AllLinesBlank(lines: seq<Bytes>) {
    forall i :: 0 <= i < |lines| ==> AllBlank(lines[i])
  }

  lemma BlankParts(b: Bytes, n: nat, next: nat)
    requires n <= next <= |b| && forall i :: n <= i < next ==> b[i] == LF || b[i] == CR
    ensures AllBlank(b) <==> AllBlank(b[..n]) && AllBlank(b[next..])
  {
    assert forall i :: next <= i < |b| ==> b[i] == b[next..][i - next];
  }

  lemma BlankFirst(line: Bytes, rest: seq<Bytes>)
    ensures AllLinesBlank([line] + rest) <==> AllBlank(line) && AllLinesBlank(rest)
  {
    hide AllBlank;
    var lines := [line] + rest;
    assert lines[0] == line;
    assert forall i :: 0 <= i < |rest| ==> lines[i + 1] == rest[i];
  }

  lemma {:induction false} LinesBlankIff(b: Bytes)
    ensures AllLinesBlank(Lines(b)) <==> AllBlank(b)
    decreases |b|
  {
    hide AllLinesBlank, AllBlank, LineEnd;
    if b == [] {
      NoLinesBlank();
    } else {
      var n := LineEnd(b);
      var next := if n < |b| then NextLine(b, n) else n;
      var rest := if n < |b| then Lines(b[next..]) else [];
      BlankParts(b, n, next);
      BlankFirst(b[..n], rest);
      if n < |b| {
        LinesBlankIff(b[next..]);
      } else {
        assert b[..n] == b && b[next..] == [] && [b] + rest == [b];
        NoLinesBlank();
      }
    }
  }

  lemma NoLinesBlank()
    ensures AllLinesBlank([]) && AllBlank([])
  {}

  lemma {:induction false} NewestMissingIff<S>(c: Codec<S>, lines: seq<Bytes>)
    ensures Newest(c, lines) == Missing <==> AllLinesBlank(lines)
  {
    hide AllBlank, Strip;
    if lines != [] {
      var n := |lines| - 1;
      NewestMissingIff(c, lines[..n]);
      StripEmptyIff(lines[n]);
    }
  }

  /** A file counts as no session at all exactly if it has white space only, line breaks among it. */
  lemma MissingIffBlank<S>(c: Codec<S>, file: Bytes)
    ensures Load(c, file) == Missing <==> forall i :: 0 <= i < |file| ==> file[i] == 32 || 9 <= file[i] <= 13
  {
    NewestMissingIff(c, Lines(file));
    LinesBlankIff(file);
  }

  // ---------------------------------------------------------------------
  // Writing
  // ---------------------------------------------------------------------

  /** The line break put after an interrupted record. */
  function Repair(file: Bytes): Bytes {
    if file != [] && file[|file| - 1] != LF then [LF] else []
  }

  /** What one save appends. */
  function Record<S>(c: Codec<S>, file: Bytes, s: S): Bytes {
    Repair(file) + c.encode(s) + [LF]
  }

  function Grown<S>(c: Codec<S>, file: Bytes, s: S): Bytes {
    file + Record(c, file, s)
  }

  /** A save: the appended file, or once that is too long a new one with this record alone. */
  function Saved<S>(c: Codec<S>, file: Bytes, s: S, threshold: nat): Bytes {
    if |Grown(c, file, s)| <= threshold then Grown(c, file, s) else c.encode(s) + [LF]
  }

  /** A save that died after `k` bytes. */
  function Torn<S>(c: Codec<S>, file: Bytes, s: S, k: nat): Bytes {
    var record := Record(c, file, s);
    file + record[..if k <= |record| then k else |record|]
  }

  // ---------------------------------------------------------------------
  // Lines of an appended file
  // ---------------------------------------------------------------------

  predicate Terminated(file: Bytes) {
    file == [] || file[|file| - 1] == LF
  }

  lemma LineEndOfSum(a: Bytes, b: Bytes)
    requires LineEnd(a) < |a|
    ensures LineEnd(a + b) == LineEnd(a)
  {
    assert (a + b)[LineEnd(a)] == a[LineEnd(a)];
  }

  lemma LinesUnfold(b: Bytes)
    requires LineEnd(b) < |b|
    ensures Lines(b) == [b[..LineEnd(b)]] + Lines(b[NextLine(b, LineEnd(b))..])
  {}

  /** Appending to a file that ends in a line break only adds lines. */
  lemma {:induction false} LinesOfSum(a: Bytes, b: Bytes)
    requires Terminated(a)
    ensures Lines(a + b) == Lines(a) + Lines(b)
    decreases |a|
  {
    if a == [] {
      assert a + b == b;
    } else {
      FirstLineOfSum(a, b);
      var n := LineEnd(a);
      var rest := a[NextLine(a, n)..];
      hide LineEnd, NextLine, Terminated, Lines;
      LinesUnfold(a);
      LinesUnfold(a + b);
      LinesOfSum(rest, b);
      ConcatAssociates([a[..n]], Lines(rest), Lines(b));
    }
  }

  lemma FirstLineOfSum(a: Bytes, b: Bytes)
    requires Terminated(a) && a != []
    ensures LineEnd(a) < |a| && LineEnd(a + b) == LineEnd(a)
    ensures NextLine(a + b, LineEnd(a)) == NextLine(a, LineEnd(a))
    ensures (a + b)[..LineEnd(a)] == a[..LineEnd(a)]
    ensures (a + b)[NextLine(a, LineEnd(a))..] == a[NextLine(a, LineEnd(a))..] + b
    ensures Terminated(a[NextLine(a, LineEnd(a))..])
  {
    assert LineEnd(a) < |a| by {
      assert a[|a| - 1] == LF;
    }
    LineEndOfSum(a, b);
  }

  lemma UnbrokenLine(b: Bytes)
    requires b != [] && LF !in b && CR !in b
    ensures Lines(b) == [b] && Lines(b + [LF]) == [b]
  {
    assert LineEnd(b) == |b|;
    var sum := b + [LF];
    assert sum[|b|] == LF;
    assert LineEnd(sum) == |b|;
    assert sum[..|b|] == b && sum[|b| + 1..] == [];
  }

  /** A file ending in a lone carriage return: the line feed completes its line break. */
  lemma CarriageReturnCompleted(a: Bytes)
    requires LineEnd(a) == |a| - 1 && a[|a| - 1] == CR
    ensures Lines(a + [LF]) == Lines(a)
  {
    LineEndOfSum(a, [LF]);
    var n, sum := LineEnd(a), a + [LF];
    assert sum[n + 1] == LF && NextLine(sum, n) == |sum|;
    assert sum[..n] == a[..n] && sum[|sum|..] == [] && a[|a|..] == [];
    LinesUnfold(a);
    LinesUnfold(sum);
  }

  /** The repairing line break adds no line of its own. */
  lemma {:induction false} LinesOfRepaired(a: Bytes)
    ensures Lines(a + Repair(a)) == Lines(a)
    decreases |a|
  {
    if Terminated(a) {
      assert a + [] == a;
    } else if LineEnd(a) == |a| {
      UnbrokenLine(a);
    } else {
      LineEndOfSum(a, [LF]);
      var n := LineEnd(a);
      var next := NextLine(a, n);
      if next == |a| {
        CarriageReturnCompleted(a);
      } else {
        var rest, sum := a[next..], a + [LF];
        assert sum[next..] == rest + [LF] && sum[..n] == a[..n] && Repair(rest) == [LF];
        LinesUnfold(a);
        LinesUnfold(sum);
        LinesOfRepaired(rest);
        hide Lines;
      }
    }
  }

  // ---------------------------------------------------------------------
  // What loading finds after a write
  // ---------------------------------------------------------------------

  lemma {:induction false} RStripPrefix(b: Bytes)
    requires b != [] && !IsBlank(b[0])
    ensures RStrip(b) != []
  {
    if IsBlank(b[|b| - 1]) {
      RStripPrefix(b[..|b| - 1]);
    }
  }

  /** A whole record is found; a part of one, if it is not empty, is noise. */
  lemma StripOfRecord<S>(c: Codec<S>, s: S, k: nat)
    requires Faithful(c, s) && 0 < k <= |c.encode(s)|
    ensures var line := Strip(c.encode(s)[..k]);
            line != [] && if k == |c.encode(s)| then c.decode(line) == Some(s) else c.decode(line) == None
  {
    var e := c.encode(s);
    assert LStrip(e[..k]) == e[..k];
    RStripPrefix(e[..k]);
    if k == |e| {
      assert e[..k] == e;
    } else {
      var line := RStrip(e[..k]);
      assert line == e[..|line|];
    }
  }

  lemma PartAppended<S>(c: Codec<S>, file: Bytes, s: S, k: nat)
    requires Faithful(c, s) && 0 < k <= |c.encode(s)|
    ensures var part := file + Repair(file) + c.encode(s)[..k];
            var found := if k == |c.encode(s)| then Found(s) else Over(Load(c, file));
            Load(c, part) == found && Load(c, part + [LF]) == found
  {
    hide LStrip, RStrip, LineEnd, NextLine;
    var repaired, part := file + Repair(file), c.encode(s)[..k];
    LinesOfRepaired(file);
    LinesOfSum(repaired, part);
    LinesOfSum(repaired, part + [LF]);
    UnbrokenLine(part);
    assert repaired + part + [LF] == repaired + (part + [LF]);
    var lines := Lines(file) + [part];
    assert lines[..|lines| - 1] == Lines(file);
    StripOfRecord(c, s, k);
  }

  lemma RecordIsFound<S>(c: Codec<S>, file: Bytes, s: S)
    requires Faithful(c, s)
    ensures Load(c, file + Record(c, file, s)) == Found(s)
    ensures Load(c, c.encode(s) + [LF]) == Found(s)
  {
    hide Load;
    var e := c.encode(s);
    assert e[..|e|] == e;
    PartAppended(c, file, s, |e|);
    PartAppended(c, [], s, |e|);
    assert file + Record(c, file, s) == file + Repair(file) + e + [LF];
    assert [] + Repair([]) + e + [LF] == e + [LF];
  }

  /** The whole of a save, compacted or not, is what loading then finds, and the file stays bounded. */
  lemma SavedIsFound<S>(c: Codec<S>, file: Bytes, s: S, threshold: nat)
    requires Faithful(c, s)
    ensures Load(c, Saved(c, file, s, threshold)) == Found(s)
    ensures |Saved(c, file, s, threshold)| <= Max(threshold, |c.encode(s)| + 1)
  {
    hide Load, Record;
    RecordIsFound(c, file, s);
  }

  /** What a crash after `k` bytes leaves to be found: the save if its record is whole, else what was there. */
  function Survives<S>(c: Codec<S>, file: Bytes, before: Loaded<S>, s: S, k: nat): Loaded<S> {
    var start := |Repair(file)|;
    if k <= start then before
    else if k >= start + |c.encode(s)| then Found(s)
    else Over(before)
  }

  lemma RepairedLoads<S>(c: Codec<S>, file: Bytes)
    ensures Load(c, file + Repair(file)) == Load(c, file)
  {
    LinesOfRepaired(file);
  }

  lemma RecordNotEmpty<S>(c: Codec<S>, s: S)
    requires Faithful(c, s)
    ensures |c.encode(s)| > 0
  {}

  lemma TornIsSurvived<S>(c: Codec<S>, file: Bytes, s: S, k: nat)
    requires Faithful(c, s)
    ensures Load(c, Torn(c, file, s, k)) == Survives(c, file, Load(c, file), s, k)
  {
    hide Load, Faithful;
    RecordNotEmpty(c, s);
    var e, repair, record := c.encode(s), Repair(file), Record(c, file, s);
    var start := |repair|;
    if k == 0 {
      assert file + record[..0] == file;
    } else if k <= start {
      assert file + record[..k] == file + repair;
      RepairedLoads(c, file);
    } else {
      var part := if k - start <= |e| then k - start else |e|;
      PartAppended(c, file, s, part);
      if k <= start + |e| {
        assert file + record[..k] == file + repair + e[..part];
      } else {
        assert Torn(c, file, s, k) == file + repair + e[..part] + [LF];
      }
    }
  }

  // ---------------------------------------------------------------------
  // Whole runs
  // ---------------------------------------------------------------------

  datatype Write<+S> = Save(s: S) | Crash(s: S, k: nat)

  function Written<S>(c: Codec<S>, file: Bytes, w: Write<S>, threshold: nat): Bytes {
    match w
    case Save(s) => Saved(c, file, s, threshold)
    case Crash(s, k) => Torn(c, file, s, k)
  }

  /** The file after the first `n` writes to a new file. */
  function File<S>(c: Codec<S>, writes: seq<Write<S>>, threshold: nat, n: nat): Bytes
    requires n <= |writes|
  {
    if n == 0 then [] else Written(c, File(c, writes, threshold, n - 1), writes[n - 1], threshold)
  }

  /** Every byte of the session's record reached the file. */
  predicate Whole<S>(c: Codec<S>, file: Bytes, w: Write<S>) {
    w.Save? || w.k >= |Repair(file)| + |c.encode(w.s)|
  }

  /** Some byte of the session's record reached the file. */
  predicate Begun<S>(c: Codec<S>, file: Bytes, w: Write<S>) {
    w.Save? || w.k > |Repair(file)|
  }

  predicate WholeAt<S>(c: Codec<S>, writes: seq<Write<S>>, threshold: nat, i: nat)
    requires i < |writes|
  {
    Whole(c, File(c, writes, threshold, i), writes[i])
  }

  predicate BegunAt<S>(c: Codec<S>, writes: seq<Write<S>>, threshold: nat, i: nat)
    requires i < |writes|
  {
    Begun(c, File(c, writes, threshold, i), writes[i])
  }

  /** The newest of the first `n` writes that reached the file whole. */
  predicate NewestWhole<S>(c: Codec<S>, writes: seq<Write<S>>, threshold: nat, n: nat, i: nat)
    requires n <= |writes|
  {
    && i < n && WholeAt(c, writes, threshold, i)
    && forall j :: i < j < n ==> !WholeAt(c, writes, threshold, j)
  }

  lemma WriteIsSurvived<S>(c: Codec<S>, file: Bytes, w: Write<S>, threshold: nat)
    requires Faithful(c, w.s)
    ensures Load(c, Written(c, file, w, threshold))
         == if Whole(c, file, w) then Found(w.s) else if Begun(c, file, w) then Over(Load(c, file)) else Load(c, file)
  {
    hide Load, Saved, Torn, Faithful;
    RecordNotEmpty(c, w.s);
    if w.Save? {
      SavedIsFound(c, file, w.s, threshold);
    } else {
      TornIsSurvived(c, file, w.s, w.k);
    }
  }

  /**
   * Crash consistency: after any run of saves, each of which may die after any byte, loading
   * finds the newest session whose bytes were all written.
   */
  lemma {:induction false} NewestWholeIsFound<S(!new)>(c: Codec<S>, writes: seq<Write<S>>, threshold: nat,
                                                            n: nat, i: nat)
    requires Lawful(c) && n <= |writes| && NewestWhole(c, writes, threshold, n, i)
    ensures Load(c, File(c, writes, threshold, n)) == Found(writes[i].s)
  {
    hide Load, Whole, Begun, Written;
    var last, file := writes[n - 1], File(c, writes, threshold, n - 1);
    assert Faithful(c, last.s);
    WriteIsSurvived(c, file, last, threshold);
    if i < n - 1 {
      assert !WholeAt(c, writes, threshold, n - 1);
      NewestWholeIsFound(c, writes, threshold, n - 1, i);
    }
  }

  ghost predicate AnyBegun<S>(c: Codec<S>, writes: seq<Write<S>>, threshold: nat, n: nat)
    requires n <= |writes|
  {
    exists i :: 0 <= i < n && BegunAt(c, writes, threshold, i)
  }

  /**
   * With no session written whole, loading raises an error if any byte of any record was
   * written, and finds nothing otherwise: a first save cut short leaves a file that no longer
   * loads, until another save succeeds.
   */
  lemma {:induction false} NothingWholeIsCorrupt<S(!new)>(c: Codec<S>, writes: seq<Write<S>>, threshold: nat, n: nat)
    requires Lawful(c) && n <= |writes|
    requires forall i :: 0 <= i < n ==> !WholeAt(c, writes, threshold, i)
    ensures Load(c, File(c, writes, threshold, n)) == if AnyBegun(c, writes, threshold, n) then Corrupt else Missing
  {
    hide Load, Whole, Begun, Written;
    if n == 0 {
      EmptyIsMissing(c);
    } else {
      var last, file := writes[n - 1], File(c, writes, threshold, n - 1);
      NothingWholeIsCorrupt(c, writes, threshold, n - 1);
      assert Faithful(c, last.s) && !WholeAt(c, writes, threshold, n - 1);
      WriteIsSurvived(c, file, last, threshold);
      assert AnyBegun(c, writes, threshold, n)
        <==> AnyBegun(c, writes, threshold, n - 1) || BegunAt(c, writes, threshold, n - 1);
    }
  }

  lemma EmptyIsMissing<S>(c: Codec<S>)
    ensures Load(c, []) == Missing
  {}

  // ---------------------------------------------------------------------
  // The laws can be met
  // ---------------------------------------------------------------------

  const OPEN: Byte := 123
  const SHUT: Byte := 125

  function Digits(b: Bytes): Bytes {
    if b == [] then [] else [97 + b[0] / 16, 97 + b[0] % 16] + Digits(b[1..])
  }

  function Undigits(b: Bytes): Option<Bytes> {
    if b == [] then Some([])
    else if |b| < 2 || !(97 <= b[0] < 113) || !(97 <= b[1] < 113) then None
    else
      var rest := Undigits(b[2..]);
      if rest.None? then None else Some([(b[0] - 97) * 16 + (b[1] - 97)] + rest.value)
  }

  /** Bytes written as letters between braces: the smallest codec with a JSON object's laws. */
  const LETTERS: Codec<Bytes> := Codec(
    s => [OPEN] + Digits(s) + [SHUT],
    b => if |b| >= 2 && b[0] == OPEN && b[|b| - 1] == SHUT then Undigits(b[1..|b| - 1]) else None)

  lemma {:induction false} DigitsRoundTrip(s: Bytes)
    ensures Undigits(Digits(s)) == Some(s)
    ensures forall d <- Digits(s) :: 97 <= d < 113
  {
    if s != [] {
      DigitsRoundTrip(s[1..]);
      var pair := [97 + s[0] / 16, 97 + s[0] % 16];
      assert Digits(s) == pair + Digits(s[1..]);
      assert Digits(s)[2..] == Digits(s[1..]);
      assert s == [s[0]] + s[1..];
    }
  }

  lemma LettersOf(s: Bytes)
    ensures Faithful(LETTERS, s)
  {
    hide Digits, Undigits;
    DigitsRoundTrip(s);
    var e := [OPEN] + Digits(s) + [SHUT];
    assert LETTERS.encode(s) == e;
    assert e[1..|e| - 1] == Digits(s);
    forall k | 0 <= k < |e|
      ensures LETTERS.decode(e[..k]) == None
    {
      if k >= 2 {
        var last := e[..k][k - 1];
        assert last == Digits(s)[k - 2] && last in Digits(s);
      }
    }
    assert forall b <- e :: b == OPEN || b == SHUT || b in Digits(s);
  }

  lemma LettersAreLawful()
    ensures Lawful(LETTERS)
  {
    hide Faithful;
    forall s: Bytes
      ensures Faithful(LETTERS, s)
    {
      LettersOf(s);
    }
  }
}
