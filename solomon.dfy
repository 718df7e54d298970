/** The Solomon instance reader of `main.py` (`load_data`): the vehicle
    capacity and the customer records of a benchmark file, read from the
    file's lines. Python exceptions (`IndexError`, `ValueError`) are the
    `Err` side of the result. */
module Solomon {
  import opened Wrappers
  import opened PyStr

  /** One row of the customer table (the `Client` record); row 0 is the depot. */
  datatype Client = Client(id: int, x: int, y: int, demand: int,
                           readyTime: int, dueDate: int, serviceTime: int)

  /** Why reading fails: `lines[i + 1]` past the end of the file, or a token
      that `int()` rejects (0-based line number and the token). */
  datatype LoadError = IndexOutOfRange(index: nat) | NotAnInteger(line: nat, token: string)

  const CapacityMarker: string := "CAPACITY"
  const HeaderMarker: string := "CUST NO."

  // ---------------------------------------------------------------------
  // Vehicle capacity

  /** The first line at or after `from` that contains `marker`. */
  function FirstContaining(lines: seq<string>, marker: string, from: nat): (r: Option<nat>)
    requires from <= |lines|
    ensures r.Some? ==> from <= r.value < |lines| && Contains(lines[r.value], marker) &&
                        forall j :: from <= j < r.value ==> !Contains(lines[j], marker)
    ensures r.None? ==> forall j :: from <= j < |lines| ==> !Contains(lines[j], marker)
    decreases |lines| - from
  {
    if from == |lines| then None
    else if Contains(lines[from], marker) then Some(from)
    else FirstContaining(lines, marker, from + 1)
  }

  /** What `load_data` does on finding `CAPACITY` on line `h`: the second
      token of the next line, stripped and split, or 0 when that line has
      fewer than two tokens. */
  function CapacityAfter(lines: seq<string>, h: nat): Result<int, LoadError>
    requires h < |lines|
  {
    if h + 1 >= |lines| then Err(IndexOutOfRange(h + 1))
    else
      var parts := Split(Strip(lines[h + 1]));
      if |parts| >= 2 then
        match ParseInt(parts[1])
        case None => Err(NotAnInteger(h + 1, parts[1]))
        case Some(v) => Ok(v)
      else Ok(0)
  }

  /** The capacity `load_data` reports: only the first `CAPACITY` line is
      looked at; without one the capacity stays 0. */
  function CapacityOf(lines: seq<string>): Result<int, LoadError> {
    match FirstContaining(lines, CapacityMarker, 0)
    case None => Ok(0)
    case Some(h) => CapacityAfter(lines, h)
  }

  /** The line after the first `CAPACITY` line decides the capacity. */
  lemma {:induction false} CapacityFromFirstMarker(lines: seq<string>, h: nat)
    requires h < |lines| && Contains(lines[h], CapacityMarker)
    requires forall j :: 0 <= j < h ==> !Contains(lines[j], CapacityMarker)
    ensures CapacityOf(lines) == CapacityAfter(lines, h)
  {
  }

  /** Lines past the one after the first `CAPACITY` line never change the
      capacity, whatever they contain. */
  lemma {:induction false} CapacityIgnoresLaterLines(lines: seq<string>, more: seq<string>, h: nat)
    requires h + 1 < |lines| && Contains(lines[h], CapacityMarker)
    requires forall j :: 0 <= j < h ==> !Contains(lines[j], CapacityMarker)
    ensures CapacityOf(lines + more) == CapacityOf(lines)
  {
    var all := lines + more;
    assert all[h] == lines[h] && all[h + 1] == lines[h + 1];
    CapacityFromFirstMarker(lines, h);
    CapacityFromFirstMarker(all, h);
  }

  // ---------------------------------------------------------------------
  // Customer records

  /** `int()` applied to each token in turn; the first token it rejects is
      the error. */
  function ParseInts(tokens: seq<string>, line: nat): (r: Result<seq<int>, LoadError>)
    ensures r.Ok? ==> |r.value| == |tokens|
  {
    if tokens == [] then Ok([])
    else
      match ParseInt(tokens[0])
      case None => Err(NotAnInteger(line, tokens[0]))
      case Some(v) =>
        match ParseInts(tokens[1..], line)
        case Err(e) => Err(e)
        case Ok(vs) => Ok([v] + vs)
  }

  /** Each value is its token's integer; a failure names a token of the
      line that `int()` rejects, with every earlier token accepted. */
  lemma {:induction false} ParseIntsFacts(tokens: seq<string>, line: nat)
    ensures ParseInts(tokens, line).Ok? ==> forall i :: 0 <= i < |tokens| ==>
              ParseInt(tokens[i]) == Some(ParseInts(tokens, line).value[i])
    ensures ParseInts(tokens, line).Err? ==>
              exists i :: 0 <= i < |tokens| &&
                ParseInts(tokens, line).error == NotAnInteger(line, tokens[i]) &&
                ParseInt(tokens[i]).None? &&
                forall j :: 0 <= j < i ==> ParseInt(tokens[j]).Some?
  {
    if tokens != [] {
      ParseIntsFacts(tokens[1..], line);
      var r := ParseInts(tokens, line);
      if r.Err? && ParseInt(tokens[0]).Some? {
        var i :| 0 <= i < |tokens| - 1 &&
                 r.error == NotAnInteger(line, tokens[1..][i]) && ParseInt(tokens[1..][i]).None? &&
                 forall j :: 0 <= j < i ==> ParseInt(tokens[1..][j]).Some?;
        assert ParseInt(tokens[i + 1]).None?;
      }
    }
  }

  /** The `Client(...)` built from the first seven tokens of a data line. */
  function ParseRecord(parts: seq<string>, line: nat): Result<Client, LoadError>
    requires |parts| >= 7
  {
    match ParseInts(parts[..7], line)
    case Err(e) => Err(e)
    case Ok(v) => Ok(Client(v[0], v[1], v[2], v[3], v[4], v[5], v[6]))
  }

  /** The record succeeds exactly when each of the first seven tokens is an
      integer; its fields are those integers, by position; tokens after the
      seventh play no part. */
  lemma {:induction false} ParseRecordFields(parts: seq<string>, line: nat)
    requires |parts| >= 7
    ensures ParseRecord(parts, line).Ok? <==> forall i :: 0 <= i < 7 ==> ParseInt(parts[i]).Some?
    ensures ParseRecord(parts, line).Ok? ==> var c := ParseRecord(parts, line).value;
      ParseInt(parts[0]) == Some(c.id) && ParseInt(parts[1]) == Some(c.x) &&
      ParseInt(parts[2]) == Some(c.y) && ParseInt(parts[3]) == Some(c.demand) &&
      ParseInt(parts[4]) == Some(c.readyTime) && ParseInt(parts[5]) == Some(c.dueDate) &&
      ParseInt(parts[6]) == Some(c.serviceTime)
    ensures ParseRecord(parts, line) == ParseRecord(parts[..7], line)
  {
    assert parts[..7][..7] == parts[..7];
    ParseIntsFacts(parts[..7], line);
    var r := ParseInts(parts[..7], line);
    if r.Err? {
      var k :| 0 <= k < 7 && parts[..7][k] == r.error.token;
    }
  }

  /** When every token is an integer, `ParseInts` returns exactly them. */
  lemma {:induction false} ParseIntsAllValid(tokens: seq<string>, values: seq<int>, line: nat)
    requires |tokens| == |values|
    requires forall i :: 0 <= i < |tokens| ==> ParseInt(tokens[i]) == Some(values[i])
    ensures ParseInts(tokens, line) == Ok(values)
  {
    var r := ParseInts(tokens, line);
    ParseIntsFacts(tokens, line);
    if r.Ok? {
      forall i | 0 <= i < |values| ensures r.value[i] == values[i] {
        assert ParseInt(tokens[i]) == Some(r.value[i]);
      }
      assert r.value == values;
    }
  }

  /** The seven columns of a customer row, in file order. */
  function Columns(c: Client): seq<int> {
    [c.id, c.x, c.y, c.demand, c.readyTime, c.dueDate, c.serviceTime]
  }

  /** The seven columns written as decimal integers; each reads back, with
      `int()`, as its column. */
  function ColumnTokens(c: Client): (r: seq<string>)
    ensures |r| == 7
    ensures forall i :: 0 <= i < 7 ==> ParseInt(r[i]) == Some(Columns(c)[i])
  {
    ParseIntToString(c.id); ParseIntToString(c.x); ParseIntToString(c.y);
    ParseIntToString(c.demand); ParseIntToString(c.readyTime);
    ParseIntToString(c.dueDate); ParseIntToString(c.serviceTime);
    [IntToString(c.id), IntToString(c.x), IntToString(c.y), IntToString(c.demand),
     IntToString(c.readyTime), IntToString(c.dueDate), IntToString(c.serviceTime)]
  }

  /** A customer row as the benchmark files lay it out: seven integers
      separated by blanks. */
  function FormatRecord(c: Client): string {
    JoinSpaced(ColumnTokens(c))
  }

  /** Round trip: a formatted row splits into seven tokens and reads back as
      the same customer. */
  lemma {:induction false} ParseFormattedRecord(c: Client, line: nat)
    ensures |Split(FormatRecord(c))| == 7
    ensures ParseRecord(Split(FormatRecord(c)), line) == Ok(c)
  {
    var toks := ColumnTokens(c);
    forall i | 0 <= i < 7
      ensures toks[i] == IntToString(Columns(c)[i])
      ensures toks[i] != [] && NoSpace(toks[i])
    {
      IntToStringChars(Columns(c)[i]);
    }
    SplitJoinSpaced(toks);
    assert toks[..7] == toks;
    ParseIntsAllValid(toks, Columns(c), line);
  }

  /** The scanner's state: whether a `CUST NO.` line has been seen, and the
      customers read so far. */
  datatype Scan = Scan(started: bool, clients: seq<Client>)

  /** One iteration of the scanning loop over line number `lineNo`. */
  function Step(st: Scan, line: string, lineNo: nat): Result<Scan, LoadError> {
    if IsBlank(line) then Ok(st)
    else if Contains(line, HeaderMarker) then Ok(st.(started := true))
    else if st.started && |Split(line)| >= 7 then
      match ParseRecord(Split(line), lineNo)
      case Err(e) => Err(e)
      case Ok(c) => Ok(st.(clients := st.clients + [c]))
    else Ok(st)
  }

  /** The scanner after the first `n` lines. */
  function ScanPrefix(lines: seq<string>, n: nat): Result<Scan, LoadError>
    requires n <= |lines|
  {
    if n == 0 then Ok(Scan(false, []))
    else
      match ScanPrefix(lines, n - 1)
      case Err(e) => Err(e)
      case Ok(st) => Step(st, lines[n - 1], n - 1)
  }

  /** An exception ends the scan: later lines do not change it. */
  lemma {:induction false} ScanErrorPersists(lines: seq<string>, k: nat, n: nat)
    requires k <= n <= |lines| && ScanPrefix(lines, k).Err?
    ensures ScanPrefix(lines, n) == ScanPrefix(lines, k)
    decreases n
  {
    if n > k {
      ScanErrorPersists(lines, k, n - 1);
    }
  }

  // ---------------------------------------------------------------------
  // The customer table, described line by line rather than by the loop

  /** Some line before line `j` contains `CUST NO.`. */
  ghost predicate HeaderBefore(lines: seq<string>, j: nat)
    requires j <= |lines|
  {
    exists h :: 0 <= h < j && Contains(lines[h], HeaderMarker)
  }

  /** Line `j` yields a customer: it comes after a `CUST NO.` line, is not
      blank, is not itself a `CUST NO.` line, and has at least seven tokens. */
  ghost predicate IsDataLine(lines: seq<string>, j: nat)
    requires j < |lines|
  {
    HeaderBefore(lines, j) && !IsBlank(lines[j]) && !Contains(lines[j], HeaderMarker) &&
    |Split(lines[j])| >= 7
  }

  /** The data lines among the first `n`, in file order. */
  ghost function DataLines(lines: seq<string>, n: nat): (r: seq<nat>)
    requires n <= |lines|
    ensures forall k :: 0 <= k < |r| ==> r[k] < n && IsDataLine(lines, r[k])
    ensures forall k, l :: 0 <= k < l < |r| ==> r[k] < r[l]
    ensures forall j :: 0 <= j < n && IsDataLine(lines, j) ==> j in r
  {
    if n == 0 then [] else DataLines(lines, n - 1) + (if IsDataLine(lines, n - 1) then [n - 1] else [])
  }

  /** The records of the given lines, in order; the first one that does not
      parse is the error. */
  ghost function RecordsAt(lines: seq<string>, idx: seq<nat>): (r: Result<seq<Client>, LoadError>)
    requires forall k :: 0 <= k < |idx| ==> idx[k] < |lines| && |Split(lines[idx[k]])| >= 7
    ensures r.Ok? ==> |r.value| == |idx|
    decreases |idx|
  {
    if idx == [] then Ok([])
    else
      var j := idx[|idx| - 1];
      match RecordsAt(lines, idx[..|idx| - 1])
      case Err(e) => Err(e)
      case Ok(cs) =>
        match ParseRecord(Split(lines[j]), j)
        case Err(e) => Err(e)
        case Ok(c) => Ok(cs + [c])
  }

  /** Each record read is the record of its line; when every line's record
      parses, the whole reading succeeds. */
  lemma {:induction false} RecordsAtFacts(lines: seq<string>, idx: seq<nat>)
    requires forall k :: 0 <= k < |idx| ==> idx[k] < |lines| && |Split(lines[idx[k]])| >= 7
    ensures RecordsAt(lines, idx).Ok? ==> forall k :: 0 <= k < |idx| ==>
              ParseRecord(Split(lines[idx[k]]), idx[k]) == Ok(RecordsAt(lines, idx).value[k])
    ensures (forall k :: 0 <= k < |idx| ==> ParseRecord(Split(lines[idx[k]]), idx[k]).Ok?) ==>
              RecordsAt(lines, idx).Ok?
    decreases |idx|
  {
    if idx != [] {
      var front := idx[..|idx| - 1];
      RecordsAtFacts(lines, front);
      assert forall k :: 0 <= k < |front| ==> front[k] == idx[k];
    }
  }

  /** A `CUST NO.` line is never blank. */
  lemma {:induction false} HeaderLineNotBlank(line: string)
    ensures Contains(line, HeaderMarker) ==> !IsBlank(line)
  {
    if Contains(line, HeaderMarker) {
      var i :| 0 <= i <= |line| - |HeaderMarker| && OccursAt(line, HeaderMarker, i);
      assert line[i] == HeaderMarker[0] == 'C';
      StripFacts(line);
    }
  }

  /** A line that is not a `CUST NO.` line leaves the flag as it was. */
  lemma {:induction false} HeaderBeforeStep(lines: seq<string>, n: nat)
    requires 0 < n <= |lines|
    ensures HeaderBefore(lines, n) ==
            (HeaderBefore(lines, n - 1) || Contains(lines[n - 1], HeaderMarker))
  {
    if HeaderBefore(lines, n) && !Contains(lines[n - 1], HeaderMarker) {
      var h :| 0 <= h < n && Contains(lines[h], HeaderMarker);
      assert h < n - 1;
    }
  }

  /** The data lines among the first `n`: those among the first `n - 1`,
      then line `n - 1` when it is one. */
  lemma {:induction false} DataLinesStep(lines: seq<string>, n: nat)
    requires 0 < n <= |lines|
    ensures IsDataLine(lines, n - 1) ==> DataLines(lines, n) == DataLines(lines, n - 1) + [n - 1]
    ensures !IsDataLine(lines, n - 1) ==> DataLines(lines, n) == DataLines(lines, n - 1)
  {
  }

  /** Records of one more line: the earlier error, or the earlier records
      followed by this line's record. */
  lemma {:induction false} RecordsAtSnoc(lines: seq<string>, idx: seq<nat>, j: nat)
    requires forall k :: 0 <= k < |idx| ==> idx[k] < |lines| && |Split(lines[idx[k]])| >= 7
    requires j < |lines| && |Split(lines[j])| >= 7
    ensures RecordsAt(lines, idx + [j]) ==
      match RecordsAt(lines, idx)
      case Err(e) => Err(e)
      case Ok(cs) =>
        match ParseRecord(Split(lines[j]), j)
        case Err(e) => Err(e)
        case Ok(c) => Ok(cs + [c])
  {
    assert (idx + [j])[..|idx|] == idx;
  }

  /** One line of the scanning loop keeps the scanner in step with the
      records of the data lines seen so far. */
  lemma {:induction false} StepReadsDataLine(lines: seq<string>, n: nat, st: Scan)
    requires 0 < n <= |lines|
    requires st.started == HeaderBefore(lines, n - 1)
    requires RecordsAt(lines, DataLines(lines, n - 1)) == Ok(st.clients)
    ensures Step(st, lines[n - 1], n - 1) ==
      match RecordsAt(lines, DataLines(lines, n))
      case Err(e) => Err(e)
      case Ok(cs) => Ok(Scan(HeaderBefore(lines, n), cs))
  {
    var line := lines[n - 1];
    HeaderBeforeStep(lines, n);
    DataLinesStep(lines, n);
    HeaderLineNotBlank(line);
    if IsDataLine(lines, n - 1) {
      RecordsAtSnoc(lines, DataLines(lines, n - 1), n - 1);
    }
  }

  /** The scanning loop reads exactly the records of the data lines, in
      order, and its flag records whether a `CUST NO.` line has been seen. */
  lemma {:induction false} ScanReadsDataLines(lines: seq<string>, n: nat)
    requires n <= |lines|
    ensures ScanPrefix(lines, n) ==
      match RecordsAt(lines, DataLines(lines, n))
      case Err(e) => Err(e)
      case Ok(cs) => Ok(Scan(HeaderBefore(lines, n), cs))
    decreases n
  {
    if n > 0 {
      ScanReadsDataLines(lines, n - 1);
      var idx := DataLines(lines, n - 1);
      var prev := ScanPrefix(lines, n - 1);
      DataLinesStep(lines, n);
      if prev.Ok? {
        StepReadsDataLine(lines, n, prev.value);
      } else {
        assert RecordsAt(lines, idx) == Err(prev.error);
        if IsDataLine(lines, n - 1) {
          RecordsAtSnoc(lines, idx, n - 1);
        }
      }
    }
  }

  /** What `load_data` returns, or the exception it raises: the capacity
      scan runs first, then the customer scan. */
  function LoadDataSpec(lines: seq<string>): Result<(int, seq<Client>), LoadError> {
    match CapacityOf(lines)
    case Err(e) => Err(e)
    case Ok(cap) =>
      match ScanPrefix(lines, |lines|)
      case Err(e) => Err(e)
      case Ok(st) => Ok((cap, st.clients))
  }

  /** The capacity loop of `load_data`. */
  method ReadCapacity(lines: seq<string>) returns (r: Result<int, LoadError>)
    ensures r == CapacityOf(lines)
  {
    var capacity := 0;
    var i := 0;
    while i < |lines|
      invariant 0 <= i <= |lines|
      invariant forall j :: 0 <= j < i ==> !Contains(lines[j], CapacityMarker)
      invariant capacity == 0
    {
      if Contains(lines[i], CapacityMarker) {
        CapacityFromFirstMarker(lines, i);
        if i + 1 >= |lines| {
          return Err(IndexOutOfRange(i + 1));
        }
        var parts := Split(Strip(lines[i + 1]));
        if |parts| >= 2 {
          var v := ParseInt(parts[1]);
          if v.None? {
            return Err(NotAnInteger(i + 1, parts[1]));
          }
          capacity := v.value;
        }
        break;
      }
      i := i + 1;
    }
    return Ok(capacity);
  }

  /** The customer loop of `load_data`: a flag turned on by every
      `CUST NO.` line, and a list that grows by one customer per data line. */
  method ReadClients(lines: seq<string>) returns (r: Result<seq<Client>, LoadError>)
    ensures ScanPrefix(lines, |lines|).Err? ==> r == Err(ScanPrefix(lines, |lines|).error)
    ensures ScanPrefix(lines, |lines|).Ok? ==> r == Ok(ScanPrefix(lines, |lines|).value.clients)
  {
    var started := false;
    var clients: seq<Client> := [];
    for k := 0 to |lines|
      invariant ScanPrefix(lines, k) == Ok(Scan(started, clients))
    {
      var line := lines[k];
      ghost var st := Scan(started, clients);
      assert ScanPrefix(lines, k + 1) == Step(st, line, k);
      if IsBlank(line) {
        assert Step(st, line, k) == Ok(st);
        continue;
      }
      if Contains(line, HeaderMarker) {
        assert Step(st, line, k) == Ok(st.(started := true));
        started := true;
        continue;
      }
      if started {
        var parts := Split(line);
        if |parts| >= 7 {
          var c := ParseRecord(parts, k);
          if c.Err? {
            assert Step(st, line, k) == Err(c.error);
            ScanErrorPersists(lines, k + 1, |lines|);
            return Err(c.error);
          }
          assert Step(st, line, k) == Ok(st.(clients := clients + [c.value]));
          clients := clients + [c.value];
        } else {
          assert Step(st, line, k) == Ok(st);
        }
      } else {
        assert Step(st, line, k) == Ok(st);
      }
    }
    return Ok(clients);
  }

  /** `load_data` on the lines of an already-read file: the capacity and
      the customers, or the exception raised. */
  method LoadData(lines: seq<string>) returns (r: Result<(int, seq<Client>), LoadError>)
    ensures r == LoadDataSpec(lines)
  {
    var capacity := ReadCapacity(lines);
    if capacity.Err? {
      return Err(capacity.error);
    }
    var clients := ReadClients(lines);
    if clients.Err? {
      return Err(clients.error);
    }
    return Ok((capacity.value, clients.value));
  }

  // ---------------------------------------------------------------------
  // What load_data promises, stated on whole files

  /** On success, the customers are the records of the data lines, one per
      data line, in file order. */
  lemma {:induction false} LoadedClientsAreDataLines(lines: seq<string>)
    ensures LoadDataSpec(lines).Ok? ==>
      var cs := LoadDataSpec(lines).value.1;
      var idx := DataLines(lines, |lines|);
      |cs| == |idx| &&
      forall k :: 0 <= k < |idx| ==> ParseRecord(Split(lines[idx[k]]), idx[k]) == Ok(cs[k])
  {
    ScanReadsDataLines(lines, |lines|);
    RecordsAtFacts(lines, DataLines(lines, |lines|));
  }

  /** A data line whose first seven tokens are not all integers makes
      `load_data` raise instead of skipping the line. */
  lemma {:induction false} BadDataLineFails(lines: seq<string>, j: nat, t: nat)
    requires j < |lines| && IsDataLine(lines, j) && t < 7
    requires ParseInt(Split(lines[j])[t]).None?
    ensures LoadDataSpec(lines).Err?
  {
    var idx := DataLines(lines, |lines|);
    ScanReadsDataLines(lines, |lines|);
    RecordsAtFacts(lines, idx);
    ParseRecordFields(Split(lines[j]), j);
    var k :| 0 <= k < |idx| && idx[k] == j;
    assert ParseRecord(Split(lines[idx[k]]), idx[k]).Err?;
  }

  /** Blank lines, lines up to the first `CUST NO.` line and every
      `CUST NO.` line never yield a customer. */
  lemma {:induction false} SkippedLines(lines: seq<string>, j: nat)
    requires j < |lines|
    requires IsBlank(lines[j]) || Contains(lines[j], HeaderMarker) ||
             forall h :: 0 <= h <= j ==> !Contains(lines[h], HeaderMarker)
    ensures !IsDataLine(lines, j)
    ensures j !in DataLines(lines, |lines|)
  {
  }

  /** The characters a formatted customer row is made of. */
  predicate RowChar(ch: char) {
    IsDigit(ch) || ch == '-' || ch == ' '
  }

  lemma {:induction false} JoinSpacedRowChars(tokens: seq<string>)
    requires forall k, i :: 0 <= k < |tokens| && 0 <= i < |tokens[k]| ==> RowChar(tokens[k][i])
    ensures forall i :: 0 <= i < |JoinSpaced(tokens)| ==> RowChar(JoinSpaced(tokens)[i])
  {
    if |tokens| > 1 {
      JoinSpacedRowChars(tokens[1..]);
      var rest := JoinSpaced(tokens[1..]);
      forall i | 0 <= i < |JoinSpaced(tokens)| ensures RowChar(JoinSpaced(tokens)[i]) {
        if i < |tokens[0]| {
          assert JoinSpaced(tokens)[i] == tokens[0][i];
        } else if i > |tokens[0]| {
          assert JoinSpaced(tokens)[i] == rest[i - |tokens[0]| - 1];
        }
      }
    } else if |tokens| == 1 {
      assert forall i :: 0 <= i < |tokens[0]| ==> RowChar(tokens[0][i]);
    }
  }

  lemma {:induction false} FormattedRecordChars(c: Client)
    ensures forall i :: 0 <= i < |FormatRecord(c)| ==> RowChar(FormatRecord(c)[i])
  {
    var toks := ColumnTokens(c);
    forall k, i | 0 <= k < 7 && 0 <= i < |toks[k]| ensures RowChar(toks[k][i]) {
      assert toks[k] == IntToString(Columns(c)[k]);
      IntToStringChars(Columns(c)[k]);
    }
    JoinSpacedRowChars(toks);
  }

  /** A formatted row is neither blank nor a `CUST NO.` line, and holds
      exactly the customer's seven columns. */
  lemma {:induction false} FormattedRecordIsDataRow(c: Client, line: nat)
    ensures !IsBlank(FormatRecord(c))
    ensures !Contains(FormatRecord(c), HeaderMarker)
    ensures |Split(FormatRecord(c))| == 7
    ensures ParseRecord(Split(FormatRecord(c)), line) == Ok(c)
  {
    var row := FormatRecord(c);
    ParseFormattedRecord(c, line);
    if IsBlank(row) {
      BlankSplitsToNothing(row);
    }
    FormattedRecordChars(c);
    forall i | 0 <= i <= |row| - |HeaderMarker| ensures !OccursAt(row, HeaderMarker, i) {
      assert RowChar(row[i]);
      assert row[i..i + |HeaderMarker|][0] != HeaderMarker[0];
    }
  }

  /** Reading a well-formed table: the lines before the first `CUST NO.`
      line (at `h`) are skipped, whatever they hold, and the formatted rows
      after it read back as the customers they were written from, in order. */
  lemma {:induction false} ReadWellFormedTable(lines: seq<string>, h: nat, cs: seq<Client>)
    requires |lines| == h + 1 + |cs|
    requires forall j :: 0 <= j < h ==> !Contains(lines[j], HeaderMarker)
    requires Contains(lines[h], HeaderMarker)
    requires forall k :: 0 <= k < |cs| ==> lines[h + 1 + k] == FormatRecord(cs[k])
    ensures ScanPrefix(lines, |lines|) == Ok(Scan(true, cs))
  {
    FormattedRowsReadAs(lines, h + 1, cs);
    ReadTable(lines, h, cs);
  }

  /** The scan of a header-started table whose rows read as `cs`. */
  lemma {:induction false} ReadTable(lines: seq<string>, h: nat, cs: seq<Client>)
    requires |lines| == h + 1 + |cs|
    requires forall j :: 0 <= j < h ==> !Contains(lines[j], HeaderMarker)
    requires Contains(lines[h], HeaderMarker)
    requires forall k :: 0 <= k < |cs| ==> ReadsAs(lines[h + 1 + k], h + 1 + k, cs[k])
    ensures ScanPrefix(lines, |lines|) == Ok(Scan(true, cs))
  {
    ScanThroughHeader(lines, h);
    ScanRows(lines, h, cs, |cs|);
    TakeAll(cs);
  }

  /** The scan is past the header, with no customer, right after the first
      header line. */
  lemma {:induction false} ScanThroughHeader(lines: seq<string>, h: nat)
    requires h < |lines|
    requires forall j :: 0 <= j < h ==> !Contains(lines[j], HeaderMarker)
    requires Contains(lines[h], HeaderMarker)
    ensures ScanPrefix(lines, h + 1) == Ok(Scan(true, []))
  {
    ScanPreamble(lines, h, h);
    HeaderLineNotBlank(lines[h]);
    assert ScanPrefix(lines, h + 1) == Step(Scan(false, []), lines[h], h);
  }

  lemma {:induction false} ScanPreamble(lines: seq<string>, p: nat, k: nat)
    requires k <= p <= |lines|
    requires forall j :: 0 <= j < p ==> !Contains(lines[j], HeaderMarker)
    ensures ScanPrefix(lines, k) == Ok(Scan(false, []))
    decreases k
  {
    if k > 0 {
      ScanPreamble(lines, p, k - 1);
    }
  }

  lemma {:induction false} TakeSnoc<T>(s: seq<T>, m: nat)
    requires 0 < m <= |s|
    ensures s[..m] == s[..m - 1] + [s[m - 1]]
  {
  }

  /** Line `lineNo` reads as customer `c`: it is not blank, holds no
      `CUST NO.`, splits into at least seven tokens and those parse as `c`. */
  predicate ReadsAs(row: string, lineNo: nat, c: Client) {
    !IsBlank(row) && !Contains(row, HeaderMarker) && |Split(row)| >= 7 &&
    ParseRecord(Split(row), lineNo) == Ok(c)
  }

  /** After the header, a line that reads as a customer appends it. */
  lemma {:induction false} ReadsAsAppends(st: Scan, row: string, lineNo: nat, c: Client)
    requires st.started && ReadsAs(row, lineNo, c)
    ensures Step(st, row, lineNo) == Ok(st.(clients := st.clients + [c]))
  {
  }

  /** A formatted record reads as its customer. */
  lemma {:induction false} FormattedRecordReadsAs(c: Client, lineNo: nat)
    ensures ReadsAs(FormatRecord(c), lineNo, c)
  {
    FormattedRecordIsDataRow(c, lineNo);
  }

  lemma {:induction false} FormattedRowsReadAs(lines: seq<string>, start: nat, cs: seq<Client>)
    requires start + |cs| <= |lines|
    requires forall k :: 0 <= k < |cs| ==> lines[start + k] == FormatRecord(cs[k])
    ensures forall k :: 0 <= k < |cs| ==> ReadsAs(lines[start + k], start + k, cs[k])
  {
    forall k | 0 <= k < |cs|
      ensures ReadsAs(lines[start + k], start + k, cs[k])
    {
      FormattedRecordReadsAs(cs[k], start + k);
    }
  }

  lemma {:induction false} ScanRows(lines: seq<string>, h: nat, cs: seq<Client>, m: nat)
    requires m <= |cs| && h + 1 + |cs| == |lines|
    requires ScanPrefix(lines, h + 1) == Ok(Scan(true, []))
    requires forall k :: 0 <= k < |cs| ==> ReadsAs(lines[h + 1 + k], h + 1 + k, cs[k])
    ensures ScanPrefix(lines, h + 1 + m) == Ok(Scan(true, cs[..m]))
    decreases m
  {
    if m > 0 {
      ScanRows(lines, h, cs, m - 1);
      var row := lines[h + 1 + (m - 1)];
      assert ReadsAs(row, h + 1 + (m - 1), cs[m - 1]);
      ReadsAsAppends(Scan(true, cs[..m - 1]), row, h + 1 + (m - 1), cs[m - 1]);
      assert ScanPrefix(lines, h + 1 + m) == Step(Scan(true, cs[..m - 1]), row, h + 1 + (m - 1));
      TakeSnoc(cs, m);
    }
  }
}
