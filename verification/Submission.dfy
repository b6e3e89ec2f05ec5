/**
  Submitting an agent's source: a file and two rows are written, then a binary and an update,
  and a failure in the middle is compensated by deleting the file that no row names.
 */
module Submission {
  import opened Text

  type FileID = nat

  /**
    The artifact directory: file contents by ID. Every write takes an ID that was never used before.
    When `reliable` no read or write fails, and when `deletesSucceed` no delete does.
   */
  class Repository {
    const reliable: bool
    const deletesSucceed: bool
    var files: map<FileID, string>
    var lastID: FileID

    ghost predicate Valid()
      reads this
    {
      forall id :: id in files ==> id <= lastID
    }

    constructor (reliable: bool, deletesSucceed: bool)
      ensures Valid() && files == map[] && this.reliable == reliable && this.deletesSucceed == deletesSucceed
    {
      this.reliable, this.deletesSucceed, files, lastID := reliable, deletesSucceed, map[], 0;
    }

    /** A write that fails half-way removes its file again. */
    method Write(content: string) returns (ok: bool, id: FileID)
      requires Valid()
      modifies this
      ensures Valid()
      ensures id == old(lastID) + 1 == lastID && id !in old(files)
      ensures files == if ok then old(files)[id := content] else old(files)
      ensures reliable ==> ok
    {
      lastID := lastID + 1;
      id := lastID;
      files := files[id := content];
      ok := *;
      ok := ok || reliable;
      if !ok {
        files := map k | k in files && k != id :: files[k];
      }
    }

    method Read(id: FileID) returns (ok: bool, content: string)
      ensures ok ==> id in files && content == files[id]
      ensures reliable && id in files ==> ok
    {
      ok := *;
      ok := (ok || reliable) && id in files;
      content := if ok then files[id] else "";
    }

    /** Deleting a file that is not there succeeds. */
    method Delete(id: FileID) returns (ok: bool)
      requires Valid()
      modifies this`files
      ensures Valid()
      ensures files == if ok then map k | k in old(files) && k != id :: old(files)[k] else old(files)
      ensures id !in old(files) || deletesSucceed ==> ok
    {
      ok := *;
      if id !in files || deletesSucceed {
        ok := true;
      }
      if ok {
        files := map k | k in files && k != id :: files[k];
      }
    }
  }

  datatype BuildStatus = Pending | Compiled | InvalidSource

  datatype SourceRow = SourceRow(storageKey: FileID, size: nat)

  datatype SubmissionRow = SubmissionRow(user: int, source: FileID, status: BuildStatus, binary: Option<FileID>)

  datatype AgentRow = AgentRow(user: int, submission: int)

  datatype Outcome =
    | Refused(message: string)                                    // nothing was stored
    | Failed                                                      // a store or file error
    | Built(source: FileID, submission: int, agent: int)
    | NotBuilt(source: FileID, submission: int)

  /** Why a source is refused before anything is stored; `code` is already trimmed. */
  function Validate(code: string, maxBytes: int): Option<string> {
    if code == "" then Some("source code is required")
    else if ByteLen(code) > maxBytes then Some("source code exceeds the limit")
    else if !Contains(code, "package main") || !Contains(code, "func main()") then
      Some("source must be a single Go file with package main and func main()")
    else None
  }

  /** What a source must be: not blank, within the limit, and with the two texts of a Go program somewhere in it. */
  ghost predicate Acceptable(code: string, maxBytes: int) {
    && code != "" && ByteLen(code) <= maxBytes
    && (exists before: string, behind: string :: before + "package main" + behind == code)
    && exists before: string, behind: string :: before + "func main()" + behind == code
  }

  lemma ValidateMeaning(code: string, maxBytes: int)
    ensures Validate(code, maxBytes) == None <==> Acceptable(code, maxBytes)
  {
    ContainsMeaning(code, "package main");
    ContainsMeaning(code, "func main()");
    hide Contains, ByteLen;
  }

  /** The binaries that some submission names. */
  function BinariesOf(submissions: map<int, SubmissionRow>): set<FileID> {
    set s | s in submissions && submissions[s].binary.Some? :: submissions[s].binary.value
  }

  /** Setting a row that names no binary changes the named binaries by what the new row names. */
  lemma BinariesOfUpdate(rows: map<int, SubmissionRow>, id: int, row: SubmissionRow)
    requires id in rows ==> rows[id].binary == None
    ensures BinariesOf(rows[id := row]) == BinariesOf(rows) + (if row.binary.Some? then {row.binary.value} else {})
  {
    var rows' := rows[id := row];
    forall b | b in BinariesOf(rows) ensures b in BinariesOf(rows') {
      var s :| s in rows && rows[s].binary.Some? && rows[s].binary.value == b;
      assert s in rows' && rows'[s] == rows[s];
    }
    if row.binary.Some? {
      assert id in rows' && rows'[id].binary.value == row.binary.value;
    }
  }

  /** The rows agree with each other, whatever is on disk. */
  ghost predicate RowsFit(
      sources: map<FileID, SourceRow>, submissions: map<int, SubmissionRow>, agents: map<int, AgentRow>,
      lastSubmission: int, lastAgent: int)
  {
    && (forall id :: id in sources ==> sources[id].storageKey == id)
    && (forall s :: s in submissions ==> s <= lastSubmission && submissions[s].source in sources)
    && (forall s :: s in submissions ==> (submissions[s].binary.Some? <==> submissions[s].status == Compiled))
    && (forall a :: a in agents ==> a <= lastAgent && agents[a].submission in submissions
                                    && submissions[agents[a].submission].status == Compiled)
  }

  /** No binary is a source file, no two submissions share one, and nothing named has a future ID. */
  ghost predicate FilesDiffer(sources: map<FileID, SourceRow>, submissions: map<int, SubmissionRow>, lastID: FileID) {
    && (forall id :: id in sources ==> id <= lastID)
    && (forall s :: s in submissions && submissions[s].binary.Some? ==>
          submissions[s].binary.value <= lastID && submissions[s].binary.value !in sources)
    && (forall s, t :: s in submissions && t in submissions && s != t && submissions[s].binary.Some? ==>
          submissions[s].binary != submissions[t].binary)
  }

  /** Setting the row of a submission that names no binary and that no agent uses keeps the rows in agreement. */
  lemma RowsFitUpdate(
      sources: map<FileID, SourceRow>, submissions: map<int, SubmissionRow>, agents: map<int, AgentRow>,
      lastSubmission: int, lastAgent: int, id: int, row: SubmissionRow, last': int)
    requires RowsFit(sources, submissions, agents, lastSubmission, lastAgent)
    requires row.source in sources && (row.binary.Some? <==> row.status == Compiled)
    requires lastSubmission <= last' && id <= last'
    requires row.status == Compiled || forall a :: a in agents ==> agents[a].submission != id
    ensures RowsFit(sources, submissions[id := row], agents, last', lastAgent)
  {
  }

  lemma FilesDifferUpdate(
      sources: map<FileID, SourceRow>, submissions: map<int, SubmissionRow>, lastID: FileID, id: int,
      row: SubmissionRow)
    requires FilesDiffer(sources, submissions, lastID)
    requires row.binary.Some? ==>
               row.binary.value <= lastID && row.binary.value !in sources
               && row.binary.value !in BinariesOf(submissions)
    ensures FilesDiffer(sources, submissions[id := row], lastID)
  {
    forall s | s in submissions && submissions[s].binary.Some?
      ensures submissions[s].binary.value in BinariesOf(submissions)
    {
    }
    hide BinariesOf;
  }

  /** The files on disk are exactly those that the rows name, those whose delete failed, and `extra`. */
  ghost predicate DiskHolds(
      files: map<FileID, string>, sources: map<FileID, SourceRow>, binaries: set<FileID>, orphans: set<FileID>,
      extra: set<FileID>, deletesSucceed: bool)
  {
    && files.Keys == sources.Keys + binaries + orphans + extra
    && orphans !! sources.Keys + binaries
    && extra !! sources.Keys + binaries + orphans
    && (deletesSucceed ==> orphans == {})
    && (forall id :: id in sources ==> ByteLen(files[id]) == sources[id].size)
  }

  lemma NextIsFresh(
      sources: map<FileID, SourceRow>, submissions: map<int, SubmissionRow>, agents: map<int, AgentRow>,
      lastSubmission: int, lastAgent: int)
    requires RowsFit(sources, submissions, agents, lastSubmission, lastAgent)
    ensures lastSubmission + 1 !in submissions
    ensures forall a :: a in agents ==> agents[a].submission != lastSubmission + 1
  {
  }

  lemma RowIsKnown(
      sources: map<FileID, SourceRow>, submissions: map<int, SubmissionRow>, agents: map<int, AgentRow>,
      lastSubmission: int, lastAgent: int, id: int)
    requires RowsFit(sources, submissions, agents, lastSubmission, lastAgent) && id in submissions
    ensures id <= lastSubmission && submissions[id].source in sources
  {
  }

  /** A file that no row names can become a binary. */
  lemma DiskTakesBinary(
      files: map<FileID, string>, sources: map<FileID, SourceRow>, binaries: set<FileID>, orphans: set<FileID>,
      binary: FileID, deletesSucceed: bool)
    requires DiskHolds(files, sources, binaries, orphans, {binary}, deletesSucceed)
    ensures binary !in sources && binary !in binaries
    ensures DiskHolds(files, sources, binaries + {binary}, orphans, {}, deletesSucceed)
  {
    hide ByteLen;
  }

  /** When `reliable` no statement fails; otherwise any statement may fail, without effect. */
  class Service {
    const reliable: bool
    const repo: Repository
    const maxSourceBytes: int
    var sources: map<FileID, SourceRow>
    var submissions: map<int, SubmissionRow>
    var agents: map<int, AgentRow>
    var lastSubmission: int
    var lastAgent: int
    /** Files whose compensating delete failed. */
    ghost var orphans: set<FileID>

    /** The binaries that some submission names. */
    ghost function Binaries(): set<FileID>
      reads this
    {
      BinariesOf(submissions)
    }

    ghost predicate RowsAgree()
      reads this
    {
      RowsFit(sources, submissions, agents, lastSubmission, lastAgent)
    }

    ghost predicate FilesAreDistinct()
      reads this, repo
    {
      FilesDiffer(sources, submissions, repo.lastID)
    }

    ghost predicate DiskMatches(extra: set<FileID>)
      reads this, repo
    {
      DiskHolds(repo.files, sources, Binaries(), orphans, extra, repo.deletesSucceed)
    }

    ghost predicate Valid()
      reads this, repo
    {
      repo.Valid() && RowsAgree() && FilesAreDistinct() && DiskMatches({})
    }

    /** Valid but for one file that was just written and that no row names yet. */
    ghost predicate ValidBut(id: FileID)
      reads this, repo
    {
      repo.Valid() && RowsAgree() && FilesAreDistinct() && DiskMatches({id})
    }

    constructor (reliable: bool, repo: Repository, maxSourceBytes: int)
      requires repo.Valid() && repo.files == map[]
      ensures Valid() && this.repo == repo && this.reliable == reliable
      ensures submissions == map[] && agents == map[] && sources == map[]
    {
      this.reliable, this.repo, this.maxSourceBytes := reliable, repo, maxSourceBytes;
      sources, submissions, agents := map[], map[], map[];
      lastSubmission, lastAgent, orphans := 0, 0, {};
    }

    /** No file that was on disk before is removed or rewritten. */
    twostate predicate FilesKept()
      reads repo
    {
      forall id :: id in old(repo.files) ==> id in repo.files && repo.files[id] == old(repo.files)[id]
    }

    /** No source or submission row that was there before is removed or rewritten. */
    twostate predicate RowsKept()
      reads this
    {
      && (forall id :: id in old(sources) ==> id in sources && sources[id] == old(sources)[id])
      && (forall s :: s in old(submissions) ==> s in submissions && submissions[s] == old(submissions)[s])
    }

    method Exec() returns (ok: bool)
      ensures reliable ==> ok
    {
      ok := *;
      ok := ok || reliable;
    }

    /** Removes a file that no row names; if the delete fails the file becomes an orphan. */
    method Compensate(id: FileID)
      requires ValidBut(id)
      modifies repo`files, this`orphans
      ensures Valid()
      ensures repo.deletesSucceed ==> orphans == old(orphans)
      ensures orphans <= old(orphans) + {id}
      ensures forall k :: k in old(repo.files) && k != id ==> k in repo.files && repo.files[k] == old(repo.files)[k]
      ensures repo.deletesSucceed ==> id !in repo.files
    {
      var ok := repo.Delete(id);
      if !ok {
        orphans := orphans + {id};
      }
    }

    method CreateSourceCode(id: FileID, size: nat) returns (ok: bool)
      requires ValidBut(id) && ByteLen(repo.files[id]) == size
      modifies this`sources
      ensures if ok then Valid() else ValidBut(id)
      ensures sources == if ok then old(sources)[id := SourceRow(id, size)] else old(sources)
      ensures reliable ==> ok
    {
      ok := Exec();
      if ok {
        sources := sources[id := SourceRow(id, size)];
      }
    }

    method CreateSubmission(user: int, source: FileID) returns (ok: bool, id: int)
      requires Valid() && source in sources
      modifies this`submissions, this`lastSubmission
      ensures Valid()
      ensures id !in old(submissions) && (forall a :: a in agents ==> agents[a].submission != id)
      ensures submissions ==
              if ok then old(submissions)[id := SubmissionRow(user, source, Pending, None)] else old(submissions)
      ensures reliable ==> ok
    {
      hide BinariesOf, RowsFit, FilesDiffer, DiskHolds, ByteLen;
      ok := Exec();
      id := lastSubmission + 1;
      NextIsFresh(sources, submissions, agents, lastSubmission, lastAgent);
      if ok {
        var row := SubmissionRow(user, source, Pending, None);
        BinariesOfUpdate(submissions, id, row);
        RowsFitUpdate(sources, submissions, agents, lastSubmission, lastAgent, id, row, id);
        FilesDifferUpdate(sources, submissions, repo.lastID, id, row);
        lastSubmission := id;
        submissions := submissions[id := row];
        assert Binaries() == old(Binaries());
      }
    }

    /** The update after a failed build. */
    method MarkInvalid(id: int)
      requires Valid() && id in submissions && submissions[id].binary == None
      requires forall a :: a in agents ==> agents[a].submission != id
      modifies this`submissions
      ensures Valid()
      ensures submissions.Keys == old(submissions).Keys
      ensures forall s :: s in submissions && s != id ==> submissions[s] == old(submissions)[s]
      ensures submissions[id] in {old(submissions)[id], old(submissions)[id].(status := InvalidSource)}
      ensures reliable ==> submissions[id].status == InvalidSource
    {
      hide BinariesOf, RowsFit, FilesDiffer, DiskHolds, ByteLen;
      var ok := Exec();
      RowIsKnown(sources, submissions, agents, lastSubmission, lastAgent, id);
      if ok {
        var row := submissions[id].(status := InvalidSource, binary := None);
        BinariesOfUpdate(submissions, id, row);
        RowsFitUpdate(sources, submissions, agents, lastSubmission, lastAgent, id, row, lastSubmission);
        FilesDifferUpdate(sources, submissions, repo.lastID, id, row);
        submissions := submissions[id := row];
        assert Binaries() == old(Binaries());
      }
    }

    /** The update after a successful build. */
    method MarkCompiled(id: int, binary: FileID) returns (ok: bool)
      requires ValidBut(binary) && id in submissions && submissions[id].binary == None && binary <= repo.lastID
      modifies this`submissions
      ensures if ok then Valid() else ValidBut(binary)
      ensures submissions ==
              if ok then old(submissions)[id := old(submissions)[id].(status := Compiled, binary := Some(binary))]
              else old(submissions)
      ensures reliable ==> ok
    {
      hide BinariesOf, RowsFit, FilesDiffer, DiskHolds, ByteLen;
      ok := Exec();
      RowIsKnown(sources, submissions, agents, lastSubmission, lastAgent, id);
      if ok {
        DiskTakesBinary(repo.files, sources, Binaries(), orphans, binary, repo.deletesSucceed);
        var row := submissions[id].(status := Compiled, binary := Some(binary));
        BinariesOfUpdate(submissions, id, row);
        RowsFitUpdate(sources, submissions, agents, lastSubmission, lastAgent, id, row, lastSubmission);
        FilesDifferUpdate(sources, submissions, repo.lastID, id, row);
        submissions := submissions[id := row];
        assert Binaries() == old(Binaries()) + {binary};
      }
    }

    method CreateAgent(user: int, submission: int) returns (ok: bool, id: int)
      requires Valid() && submission in submissions && submissions[submission].status == Compiled
      modifies this`agents, this`lastAgent
      ensures Valid()
      ensures id !in old(agents)
      ensures agents == if ok then old(agents)[id := AgentRow(user, submission)] else old(agents)
      ensures reliable ==> ok
    {
      ok := Exec();
      id := lastAgent + 1;
      if ok {
        lastAgent := id;
        agents := agents[id := AgentRow(user, submission)];
      }
    }

    /** Writes a file that no row names yet. */
    method StoreFile(content: string) returns (ok: bool, id: FileID)
      requires Valid()
      modifies repo
      ensures if ok then ValidBut(id) else Valid()
      ensures id !in old(repo.files) && id !in sources && id <= repo.lastID
      ensures repo.files == if ok then old(repo.files)[id := content] else old(repo.files)
      ensures repo.reliable ==> ok
    {
      hide ByteLen;
      ok, id := repo.Write(content);
    }

    /** Stores the source file, then its row, then the submission row. */
    method Intake(user: int, code: string) returns (ok: bool, source: FileID, submission: int)
      requires Valid()
      modifies this, repo
      ensures Valid()
      ensures FilesKept() && RowsKept()
      ensures agents == old(agents)
      ensures reliable && repo.reliable ==> ok
      ensures !ok ==> submissions == old(submissions)
      ensures ok ==>
                && source !in old(repo.files) && repo.files == old(repo.files)[source := code]
                && sources == old(sources)[source := SourceRow(source, ByteLen(code))]
                && submission !in old(submissions) && (forall a :: a in agents ==> agents[a].submission != submission)
                && submissions == old(submissions)[submission := SubmissionRow(user, source, Pending, None)]
    {
      hide RowsAgree, FilesAreDistinct, DiskMatches, Valid, BinariesOf, ByteLen;
      submission := 0;
      ok, source := StoreFile(code);
      if !ok {
        return;
      }
      ok := CreateSourceCode(source, ByteLen(code));
      if !ok {
        Compensate(source);
        return;
      }
      ok, submission := CreateSubmission(user, source);
    }

    /**
      The compiler: it reads the source and either fails, leaving no file, or writes one binary. It
      accepts what `compiles` does.
     */
    method Build(source: FileID, compiles: string -> bool) returns (ok: bool, binary: FileID)
      requires Valid()
      modifies repo
      ensures if ok then ValidBut(binary) && binary <= repo.lastID else Valid()
      ensures FilesKept() && (ok ==> binary !in old(repo.files) && binary in repo.files)
      ensures ok ==> source in old(repo.files) && compiles(old(repo.files)[source])
      ensures repo.reliable && source in old(repo.files) && compiles(old(repo.files)[source]) ==> ok
    {
      hide RowsAgree, FilesAreDistinct, BinariesOf, ByteLen;
      binary := 0;
      var read, code := repo.Read(source);
      if !read {
        return false, 0;
      }
      if !compiles(code) {
        return false, 0;
      }
      var output: string := *;
      ok, binary := StoreFile(output);
    }

    /** Builds a pending submission and records the result; a built one also gets an agent. */
    method Compile(user: int, submission: int, source: FileID, compiles: string -> bool) returns (outcome: Outcome)
      requires Valid() && source in repo.files
      requires submission in submissions && submissions[submission] == SubmissionRow(user, source, Pending, None)
      requires forall a :: a in agents ==> agents[a].submission != submission
      modifies this, repo
      ensures Valid()
      ensures FilesKept() && sources == old(sources)
      ensures submissions.Keys == old(submissions).Keys
      ensures forall s :: s in submissions && s != submission ==> submissions[s] == old(submissions)[s]
      ensures submissions[submission].user == user && submissions[submission].source == source
      ensures match outcome
              case Built(s, b, agent) =>
                && s == source && b == submission && submissions[b].status == Compiled
                && agent !in old(agents) && agents == old(agents)[agent := AgentRow(user, submission)]
              case NotBuilt(s, b) =>
                s == source && b == submission && submissions[b].status != Compiled && agents == old(agents)
              case Failed => agents == old(agents)
              case Refused(_) => false
      ensures outcome.Built? ==> compiles(old(repo.files)[source])
      ensures reliable && repo.reliable ==>
                if compiles(old(repo.files)[source]) then outcome.Built?
                else outcome.NotBuilt? && submissions[submission].status == InvalidSource
    {
      hide RowsAgree, FilesAreDistinct, DiskMatches, BinariesOf;
      var built, binary := Build(source, compiles);
      if !built {
        MarkInvalid(submission);
        return NotBuilt(source, submission);
      }
      var ok := MarkCompiled(submission, binary);
      if !ok {
        Compensate(binary);
        return Failed;
      }
      var agent;
      ok, agent := CreateAgent(user, submission);
      if !ok {
        return Failed;
      }
      return Built(source, submission, agent);
    }

    /**
      Whatever fails on the way, the invariant is kept: files and rows name each other, binaries
      belong to compiled submissions, and every agent has one. A refused source leaves no trace.
     */
    method Submit(user: int, code: string, hasBuilder: bool, compiles: string -> bool) returns (outcome: Outcome)
      requires Valid()
      modifies this, repo
      ensures Valid()
      ensures FilesKept() && RowsKept()
      ensures outcome.Refused? <==> !hasBuilder || !Acceptable(TrimSpace(code), maxSourceBytes)
      ensures outcome.Refused? ==>
                && repo.files == old(repo.files) && sources == old(sources)
                && submissions == old(submissions) && agents == old(agents)
      ensures outcome.Built? ==>
                && outcome.agent !in old(agents)
                && agents == old(agents)[outcome.agent := AgentRow(user, outcome.submission)]
      ensures outcome.Built? || outcome.NotBuilt? ==>
                && outcome.source !in old(repo.files) && outcome.source in repo.files
                && repo.files[outcome.source] == TrimSpace(code)
                && sources == old(sources)[outcome.source := SourceRow(outcome.source, ByteLen(TrimSpace(code)))]
                && outcome.submission !in old(submissions) && outcome.submission in submissions
                && submissions.Keys == old(submissions).Keys + {outcome.submission}
                && var row := submissions[outcome.submission];
                   row.user == user && row.source == outcome.source && (row.status == Compiled <==> outcome.Built?)
      ensures !outcome.Built? ==> agents == old(agents)
      ensures outcome.Built? ==> compiles(TrimSpace(code))
      ensures reliable && repo.reliable && !outcome.Refused? ==>
                if compiles(TrimSpace(code)) then outcome.Built?
                else outcome.NotBuilt? && submissions[outcome.submission].status == InvalidSource
      ensures repo.deletesSucceed ==> repo.files.Keys == sources.Keys + Binaries()
    {
      hide RowsAgree, FilesAreDistinct, DiskMatches, BinariesOf, ByteLen, TrimSpace, Validate, Acceptable;
      ValidateMeaning(TrimSpace(code), maxSourceBytes);
      if !hasBuilder {
        DiskIsExact();
        return Refused("no builder configured");
      }
      var trimmed := TrimSpace(code);
      var refusal := Validate(trimmed, maxSourceBytes);
      if refusal != None {
        DiskIsExact();
        return Refused(refusal.value);
      }
      var ok, source, submission := Intake(user, trimmed);
      if !ok {
        DiskIsExact();
        return Failed;
      }
      outcome := Compile(user, submission, source, compiles);
      DiskIsExact();
    }

    /** With deletes that succeed, the disk holds exactly the named files. */
    lemma DiskIsExact()
      requires Valid()
      ensures repo.deletesSucceed ==> repo.files.Keys == sources.Keys + Binaries()
    {
      hide BinariesOf, RowsFit, FilesDiffer, ByteLen;
    }
  }
}
