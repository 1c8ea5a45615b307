/** The in-memory repository, and deleting a persona from the disk and from its five tables. */
module Deletion {
  import opened Text
  import opened Storage

  type PersonaId = id: string | Plain(id) witness "0"

  datatype PersonaRecord = PersonaRecord(name: string, status: string)

  /** A row of one of the asset tables. */
  datatype Row = Row(rowId: nat, persona: PersonaId, detail: string)

  /** The contents of the tables, as a value. */
  datatype Tables = Tables(
    personas: map<PersonaId, PersonaRecord>,
    interviews: map<PersonaId, seq<string>>,
    photoAssets: seq<Row>,
    voiceAssets: seq<Row>,
    idleClips: seq<Row>)

  /** The rows of one persona, in order. */
  function RowsOf(rows: seq<Row>, id: PersonaId): seq<Row>
  {
    if rows == [] then []
    else (if rows[0].persona == id then [rows[0]] else []) + RowsOf(rows[1..], id)
  }

  /** The rows that belong to other personas, in order. */
  function Others(rows: seq<Row>, id: PersonaId): seq<Row>
  {
    if rows == [] then []
    else (if rows[0].persona != id then [rows[0]] else []) + Others(rows[1..], id)
  }

  lemma {:induction false} OthersSpec(rows: seq<Row>, id: PersonaId, other: PersonaId)
    ensures RowsOf(Others(rows, id), other) == if other == id then [] else RowsOf(rows, other)
  {
    if rows != [] {
      OthersSpec(rows[1..], id, other);
      var kept := Others(rows, id);
      if rows[0].persona != id {
        assert kept[1..] == Others(rows[1..], id);
      } else {
        assert kept == Others(rows[1..], id);
      }
    }
  }

  /** The rows of a persona are those that carry its id. */
  lemma {:induction false} RowsOfSpec(rows: seq<Row>, id: PersonaId, row: Row)
    ensures row in RowsOf(rows, id) <==> row in rows && row.persona == id
  {
    if rows != [] { RowsOfSpec(rows[1..], id, row); }
  }

  lemma {:induction false} OthersAppend(rows: seq<Row>, row: Row, id: PersonaId)
    ensures Others(rows + [row], id) == Others(rows, id) + (if row.persona != id then [row] else [])
  {
    if rows == [] {
      assert rows + [row] == [row];
      assert Others([row], id) == (if row.persona != id then [row] else []) + Others([row][1..], id);
    } else {
      assert (rows + [row])[1..] == rows[1..] + [row];
      OthersAppend(rows[1..], row, id);
    }
  }

  function WithoutPersona(t: Tables, id: PersonaId): Tables
  {
    Tables(t.personas - {id}, t.interviews - {id},
           Others(t.photoAssets, id), Others(t.voiceAssets, id), Others(t.idleClips, id))
  }

  /** Everything the five tables hold about one persona. */
  function About(t: Tables, id: PersonaId):
    (Option<PersonaRecord>, Option<seq<string>>, seq<Row>, seq<Row>, seq<Row>)
  {
    (if id in t.personas then Some(t.personas[id]) else None,
     if id in t.interviews then Some(t.interviews[id]) else None,
     RowsOf(t.photoAssets, id), RowsOf(t.voiceAssets, id), RowsOf(t.idleClips, id))
  }

  /** After the deletion no table knows the persona, and all tell the same as before about the others. */
  lemma WithoutPersonaSpec(t: Tables, id: PersonaId, other: PersonaId)
    ensures About(WithoutPersona(t, id), other) ==
            if other == id then (None, None, [], [], []) else About(t, other)
  {
    OthersSpec(t.photoAssets, id, other);
    OthersSpec(t.voiceAssets, id, other);
    OthersSpec(t.idleClips, id, other);
  }

  class Repository {
    var personas: map<PersonaId, PersonaRecord>
    var interviews: map<PersonaId, seq<string>>
    var photoAssets: seq<Row>
    var voiceAssets: seq<Row>
    var idleClips: seq<Row>

    function Contents(): Tables
      reads this
    {
      Tables(personas, interviews, photoAssets, voiceAssets, idleClips)
    }

    /** A missing row is silently left alone. */
    method UpdatePersonaStatus(id: PersonaId, status: string)
      modifies this
      ensures Contents() == if id in old(personas)
                            then old(Contents()).(personas := old(personas)[id := old(personas)[id].(status := status)])
                            else old(Contents())
    {
      if id !in personas { return; }
      personas := personas[id := personas[id].(status := status)];
    }

    method InsertPersonaIdleClip(row: Row)
      modifies this
      ensures Contents() == old(Contents()).(idleClips := old(idleClips) + [row])
    {
      idleClips := idleClips + [row];
    }

    /** `[r for r in rows if r["persona_id"] != id]`. */
    static method Keep(rows: seq<Row>, id: PersonaId) returns (kept: seq<Row>)
      ensures kept == Others(rows, id)
    {
      kept := [];
      for i := 0 to |rows|
        invariant kept == Others(rows[..i], id)
      {
        OthersAppend(rows[..i], rows[i], id);
        assert rows[..i + 1] == rows[..i] + [rows[i]];
        if rows[i].persona != id { kept := kept + [rows[i]]; }
      }
      assert rows[..|rows|] == rows;
    }

    /** `delete_persona_tx`: children first, then the persona. */
    method DeletePersonaTx(id: PersonaId)
      modifies this
      ensures Contents() == WithoutPersona(old(Contents()), id)
    {
      interviews := interviews - {id};
      photoAssets := Keep(photoAssets, id);
      voiceAssets := Keep(voiceAssets, id);
      idleClips := Keep(idleClips, id);
      personas := personas - {id};
    }
  }

  // ------------------------------------------------------------------ both stores

  datatype Result = Deleted | NotFound | Conflict | FsDeleteFailed | DbDeleteFailed

  /** Files at or below the persona's directory. */
  function Subtree(files: map<Path, Bytes>, dir: Path): set<Path>
  {
    set p | p in files && dir <= p
  }

  /** How `shutil.rmtree` ends: everything gone, or an OSError after removing some of it. */
  datatype Rmtree = Removed | Broke(gone: set<Path>)

  /** `safe_rmtree`: false in `ok` is an OSError. */
  method SafeRmtree(tree: FileTree, root: Path, id: PersonaId, how: Rmtree) returns (ok: bool)
    modifies tree
    ensures ok <==> how.Removed? || Subtree(old(tree.files), root + [id]) == {}
    ensures tree.files == old(tree.files) - (if ok then Subtree(old(tree.files), root + [id])
                                             else how.gone * Subtree(old(tree.files), root + [id]))
  {
    PlainPartsResolve(root, [id]);
    var target := root + [id];
    assert SafeResolve(root, [id]) == Some(target);
    var below := Subtree(tree.files, target);
    if below == {} { return true; }
    match how
    case Removed =>
      tree.files := tree.files - below;
      ok := true;
    case Broke(gone) =>
      tree.files := tree.files - (gone * below);
      ok := false;
  }

  /** What `delete_persona` answers, and what it leaves in both stores. */
  function Outcome(files: map<Path, Bytes>, t: Tables, root: Path, id: PersonaId, how: Rmtree, dbFails: bool):
    (Result, map<Path, Bytes>, Tables)
  {
    var below := Subtree(files, root + [id]);
    if id !in t.personas then (NotFound, files, t)
    else if t.personas[id].status == "PROCESSING" then (Conflict, files, t)
    else if how.Broke? && below != {} then (FsDeleteFailed, files - (how.gone * below), t)
    else if dbFails then (DbDeleteFailed, files - below, t)
    else (Deleted, files - below, WithoutPersona(t, id))
  }

  /** `delete_persona`: guards, then the disk, then the tables. A failing transaction is rolled back. */
  method DeletePersona(tree: FileTree, repo: Repository, root: Path, id: PersonaId, how: Rmtree, dbFails: bool)
    returns (r: Result)
    modifies tree, repo
    ensures (r, tree.files, repo.Contents()) ==
            Outcome(old(tree.files), old(repo.Contents()), root, id, how, dbFails)
  {
    if id !in repo.personas { return NotFound; }
    if repo.personas[id].status == "PROCESSING" { return Conflict; }
    var ok := SafeRmtree(tree, root, id, how);
    if !ok { return FsDeleteFailed; }
    if dbFails { return DbDeleteFailed; }
    repo.DeletePersonaTx(id);
    return Deleted;
  }

  ghost predicate HasFiles(files: map<Path, Bytes>, dir: Path)
  {
    exists p :: p in files && dir <= p
  }

  /** Which answer is given: to a missing persona, one that is PROCESSING, a failing disk, failing tables. */
  lemma WhichAnswer(files: map<Path, Bytes>, t: Tables, root: Path, id: PersonaId, how: Rmtree, dbFails: bool)
    ensures var r := Outcome(files, t, root, id, how, dbFails).0;
            var open := id in t.personas && t.personas[id].status != "PROCESSING";
            var stuck := how.Broke? && HasFiles(files, root + [id]);
            && (r == NotFound <==> id !in t.personas)
            && (r == Conflict <==> id in t.personas && t.personas[id].status == "PROCESSING")
            && (r == FsDeleteFailed <==> open && stuck)
            && (r == DbDeleteFailed <==> open && !stuck && dbFails)
            && (r == Deleted <==> open && !stuck && !dbFails)
  {
    var below := Subtree(files, root + [id]);
    if below != {} {
      var p :| p in below;
      assert p in files && root + [id] <= p;
    }
    if HasFiles(files, root + [id]) {
      var p :| p in files && root + [id] <= p;
      assert p in below;
    }
  }

  /** The order of the two deletions shows in what each answer leaves behind. */
  lemma AnswerTellsWhatIsLeft(
    files: map<Path, Bytes>, t: Tables, root: Path, id: PersonaId, how: Rmtree, dbFails: bool, other: PersonaId)
    ensures var (r, files', t') := Outcome(files, t, root, id, how, dbFails);
            match r
            case Deleted => Subtree(files', root + [id]) == {} && About(t', id) == (None, None, [], [], [])
                            && (other != id ==> About(t', other) == About(t, other))
            case FsDeleteFailed => t' == t && (forall p | p in files' :: p in files && files'[p] == files[p])
            case DbDeleteFailed => Subtree(files', root + [id]) == {} && t' == t
            case _ => files' == files && t' == t
  {
    WithoutPersonaSpec(t, id, id);
    WithoutPersonaSpec(t, id, other);
  }

  /** Nothing outside the persona's own directory is ever touched. */
  lemma OtherFilesUntouched(
    files: map<Path, Bytes>, t: Tables, root: Path, id: PersonaId, how: Rmtree, dbFails: bool, p: Path)
    requires !(root + [id] <= p)
    ensures var files' := Outcome(files, t, root, id, how, dbFails).1;
            (p in files' <==> p in files) && (p in files ==> files'[p] == files[p])
  {
  }

  /** Every file below the root lies in the directory of a persona that has a row. */
  ghost predicate NoOrphanFiles(files: map<Path, Bytes>, t: Tables, root: Path)
  {
    forall p | p in files && root < p :: p[|root|] in t.personas
  }

  /** However a deletion ends, it never leaves files whose persona row is gone. */
  lemma DeletionLeavesNoOrphans(
    files: map<Path, Bytes>, t: Tables, root: Path, id: PersonaId, how: Rmtree, dbFails: bool)
    requires NoOrphanFiles(files, t, root)
    ensures var (_, files', t') := Outcome(files, t, root, id, how, dbFails); NoOrphanFiles(files', t', root)
  {
    var (r, files', t') := Outcome(files, t, root, id, how, dbFails);
    forall p | p in files' && root < p ensures p[|root|] in t'.personas {
      assert p in files;
      assert root + [p[|root|]] <= p;
    }
  }
}
