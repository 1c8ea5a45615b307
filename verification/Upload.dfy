/** Streaming upload: validation chunk by chunk, then an atomic write. */
module Upload {
  import opened Text
  import opened Storage

  const CHUNK_SIZE: nat := 1024 * 1024
  const FTYP: Bytes := [0x66, 0x74, 0x79, 0x70]
  const RIFF: Bytes := [0x52, 0x49, 0x46, 0x46]

  const PHOTO_MAGIC: seq<Bytes> := [
    [0xFF, 0xD8, 0xFF],
    [0x89, 0x50, 0x4E, 0x47, 0x0D, 0x0A, 0x1A, 0x0A],
    RIFF
  ]
  const VOICE_MAGIC: seq<Bytes> := [
    RIFF,
    [0x49, 0x44, 0x33],
    [0xFF, 0xFB], [0xFF, 0xF3], [0xFF, 0xF2],
    [0x1A, 0x45, 0xDF, 0xA3],
    [0x4F, 0x67, 0x67, 0x53],
    FTYP
  ]

  function Head(content: Bytes): Bytes
  {
    if |content| < 16 then content else content[..16]
  }

  /** `_looks_like`: one of the prefixes, where `ftyp` may also stand at offset 4. */
  function LooksLike(prefixes: seq<Bytes>, head: Bytes): bool
  {
    prefixes != [] &&
    ((prefixes[0] == FTYP && |head| >= 8 && head[4..8] == FTYP)
     || prefixes[0] <= head
     || LooksLike(prefixes[1..], head))
  }

  /** The mark of an MP4. */
  predicate FtypInside(head: Bytes)
  {
    |head| >= 8 && head[4..8] == FTYP
  }

  /** One of the magic numbers is in its place. */
  ghost predicate HasMagic(prefixes: seq<Bytes>, head: Bytes)
  {
    (exists i :: 0 <= i < |prefixes| && prefixes[i] <= head) || (FTYP in prefixes && FtypInside(head))
  }

  lemma {:induction false} LooksLikeSpec(prefixes: seq<Bytes>, head: Bytes)
    ensures LooksLike(prefixes, head) <==> HasMagic(prefixes, head)
  {
    if prefixes != [] {
      var rest := prefixes[1..];
      LooksLikeSpec(rest, head);
      if HasMagic(rest, head) {
        if i :| 0 <= i < |rest| && rest[i] <= head { assert prefixes[i + 1] <= head; }
      }
      if i :| 0 < i < |prefixes| && prefixes[i] <= head { assert rest[i - 1] <= head; }
      if FTYP in prefixes && prefixes[0] != FTYP { assert FTYP in rest; }
    }
  }

  const JPEG: Bytes := PHOTO_MAGIC[0]

  /** The photo formats: JPEG, PNG and WebP. */
  lemma PhotoMagicIs(head: Bytes)
    ensures HasMagic(PHOTO_MAGIC, head) <==>
              || [0xFF, 0xD8, 0xFF] <= head
              || [0x89, 0x50, 0x4E, 0x47, 0x0D, 0x0A, 0x1A, 0x0A] <= head
              || [0x52, 0x49, 0x46, 0x46] <= head
  {
    assert PHOTO_MAGIC[0] == [0xFF, 0xD8, 0xFF];
    assert PHOTO_MAGIC[1] == [0x89, 0x50, 0x4E, 0x47, 0x0D, 0x0A, 0x1A, 0x0A];
    assert PHOTO_MAGIC[2] == [0x52, 0x49, 0x46, 0x46];
    forall i | 0 <= i < |PHOTO_MAGIC| ensures PHOTO_MAGIC[i] != FTYP {
      assert PHOTO_MAGIC[i][0] != FTYP[0];
    }
  }

  /** The sound formats: WAV, MP3, WebM, Ogg and, with its mark at the beginning or four bytes later, MP4. */
  lemma VoiceMagicIs(head: Bytes)
    ensures HasMagic(VOICE_MAGIC, head) <==>
              || [0x52, 0x49, 0x46, 0x46] <= head || [0x49, 0x44, 0x33] <= head
              || [0xFF, 0xFB] <= head || [0xFF, 0xF3] <= head || [0xFF, 0xF2] <= head
              || [0x1A, 0x45, 0xDF, 0xA3] <= head || [0x4F, 0x67, 0x67, 0x53] <= head
              || [0x66, 0x74, 0x79, 0x70] <= head || (|head| >= 8 && head[4..8] == [0x66, 0x74, 0x79, 0x70])
  {
    assert VOICE_MAGIC[0] == [0x52, 0x49, 0x46, 0x46] && VOICE_MAGIC[1] == [0x49, 0x44, 0x33];
    assert VOICE_MAGIC[2] == [0xFF, 0xFB] && VOICE_MAGIC[3] == [0xFF, 0xF3] && VOICE_MAGIC[4] == [0xFF, 0xF2];
    assert VOICE_MAGIC[5] == [0x1A, 0x45, 0xDF, 0xA3] && VOICE_MAGIC[6] == [0x4F, 0x67, 0x67, 0x53];
    assert VOICE_MAGIC[7] == FTYP;
  }

  /** No sound file begins like a JPEG or a PNG. */
  lemma VoiceMagicIsNot(head: Bytes, i: nat)
    requires i < |VOICE_MAGIC| && (JPEG <= head || PHOTO_MAGIC[1] <= head)
    ensures !(VOICE_MAGIC[i] <= head)
  {
    var magic := VOICE_MAGIC[i];
    assert |magic| >= 2 && magic[0] != 0x89 && (magic[0] == 0xFF ==> magic[1] != 0xD8);
    assert head[0] == 0x89 || (head[0] == 0xFF && head[1] == 0xD8);
  }

  /** A PNG has its own bytes where an MP4 has its mark. */
  lemma PngHasNoFtyp(head: Bytes)
    requires PHOTO_MAGIC[1] <= head
    ensures !FtypInside(head)
  {
    assert head[4] == PHOTO_MAGIC[1][4] != FTYP[0];
  }

  /**
    * The two formats are told apart by their first bytes, except that RIFF begins both WebP and
    * WAV, and that a JPEG may carry the mark of an MP4 four bytes later.
    */
  lemma PassesAsBoth(head: Bytes)
    ensures LooksLike(PHOTO_MAGIC, head) && LooksLike(VOICE_MAGIC, head) <==>
              RIFF <= head || (JPEG <= head && FtypInside(head))
  {
    LooksLikeSpec(PHOTO_MAGIC, head);
    LooksLikeSpec(VOICE_MAGIC, head);
    PhotoMagicIs(head);
    assert VOICE_MAGIC[0] == RIFF && VOICE_MAGIC[7] == FTYP;
    if JPEG <= head || PHOTO_MAGIC[1] <= head {
      forall i: nat | i < |VOICE_MAGIC| ensures !(VOICE_MAGIC[i] <= head) { VoiceMagicIsNot(head, i); }
      if PHOTO_MAGIC[1] <= head { PngHasNoFtyp(head); }
    }
  }

  datatype Verdict = Accept | UnsupportedMediaType | ContentTooLarge

  /** The decision made on the content as a whole. */
  function Decide(allowed: bool, content: Bytes, prefixes: seq<Bytes>, maxBytes: nat): Verdict
  {
    if !allowed || (|content| >= 4 && !LooksLike(prefixes, Head(content))) then UnsupportedMediaType
    else if |content| > maxBytes then ContentTooLarge
    else Accept
  }

  /** At least four bytes, of which the first sixteen carry none of the magic numbers. */
  ghost predicate Foreign(content: Bytes, prefixes: seq<Bytes>)
  {
    |content| >= 4 && !HasMagic(prefixes, if |content| < 16 then content else content[..16])
  }

  ghost predicate Acceptable(allowed: bool, content: Bytes, prefixes: seq<Bytes>, maxBytes: nat)
  {
    allowed && !Foreign(content, prefixes) && |content| <= maxBytes
  }

  lemma VerdictIs(allowed: bool, content: Bytes, prefixes: seq<Bytes>, maxBytes: nat)
    ensures var verdict := Decide(allowed, content, prefixes, maxBytes);
            && (verdict == UnsupportedMediaType <==> !allowed || Foreign(content, prefixes))
            && (verdict == ContentTooLarge <==> allowed && !Foreign(content, prefixes) && |content| > maxBytes)
            && (verdict == Accept <==> Acceptable(allowed, content, prefixes, maxBytes))
  {
    LooksLikeSpec(prefixes, Head(content));
  }

  /** The uploaded part of a request. */
  class UploadFile {
    const content: Bytes
    var pos: nat
    var closed: bool

    constructor (content: Bytes)
      ensures this.content == content && pos == 0 && !closed
    {
      this.content := content;
      pos, closed := 0, false;
    }

    /** A full chunk, or what is left before the end. */
    method Read(n: nat) returns (data: Bytes)
      requires pos <= |content|
      modifies this`pos
      ensures pos == if old(pos) + n <= |content| then old(pos) + n else |content|
      ensures data == content[old(pos)..pos]
    {
      var end := if pos + n <= |content| then pos + n else |content|;
      data := content[pos..end];
      pos := end;
    }

    method Close()
      modifies this`closed
      ensures closed
    {
      closed := true;
    }
  }

  /** The read loop: stops at the first chunk that settles the matter. */
  method ReadChecked(file: UploadFile, prefixes: seq<Bytes>, maxBytes: nat) returns (verdict: Verdict, buffer: Bytes)
    requires file.pos == 0
    modifies file`pos
    ensures verdict == Decide(true, file.content, prefixes, maxBytes)
    ensures verdict.Accept? ==> buffer == file.content
    ensures file.pos == |buffer| <= maxBytes + CHUNK_SIZE
  {
    buffer := [];
    var magicChecked := false;
    while true
      invariant file.pos <= |file.content| && buffer == file.content[..file.pos]
      invariant |buffer| <= maxBytes
      invariant magicChecked <==> |buffer| >= 4
      invariant magicChecked ==> LooksLike(prefixes, Head(file.content))
      invariant !magicChecked && file.pos > 0 ==> file.pos == |file.content|
      decreases |file.content| - file.pos
    {
      ghost var before := file.pos;
      var chunk := file.Read(CHUNK_SIZE);
      if chunk == [] { break; }
      buffer := buffer + chunk;
      assert buffer == file.content[..file.pos];
      if !magicChecked {
        var head := Head(buffer);
        assert before == 0;
        assert head == Head(file.content);
        if |head| >= 4 && !LooksLike(prefixes, head) {
          return UnsupportedMediaType, buffer;
        }
        if |head| >= 4 { magicChecked := true; }
      }
      if |buffer| > maxBytes {
        return ContentTooLarge, buffer;
      }
    }
    verdict := Accept;
  }

  datatype Result = Stored(path: Path, size: nat) | Rejected(verdict: Verdict) | BadName | WriteFailed | Interrupted

  function Target(root: Path, persona: string, subdir: string, rawName: string, freshName: string): Path
    requires Plain(freshName)
  {
    root + [persona, subdir, SanitizeName(rawName, freshName)]
  }

  /** The sanitised name always passes the path guard, and stays in the persona's own directory. */
  lemma TargetResolves(root: Path, persona: string, subdir: string, rawName: string, freshName: string)
    requires Plain(persona) && Plain(subdir) && Plain(freshName)
    ensures SafeResolve(root, [persona, subdir, SanitizeName(rawName, freshName)])
         == Some(Target(root, persona, subdir, rawName, freshName))
  {
    PlainPartsResolve(root, [persona, subdir, SanitizeName(rawName, freshName)]);
  }

  predicate EndsWith(s: string, tail: string)
  {
    |tail| <= |s| && s[|s| - |tail|..] == tail
  }

  /** The random part of the temporary name has not been used for a file before. */
  ghost predicate Unused(files: map<Path, Bytes>, nonce: string)
  {
    forall p | p in files && p != [] :: !EndsWith(p[|p| - 1], ".tmp." + nonce)
  }

  lemma TmpIsNew(files: map<Path, Bytes>, dir: Path, name: string, nonce: string)
    requires Unused(files, nonce)
    ensures dir + [name + ".tmp." + nonce] !in files && dir + [name + ".tmp." + nonce] != dir + [name]
  {
    var tmp := dir + [name + ".tmp." + nonce];
    assert tmp[|tmp| - 1] == name + (".tmp." + nonce);
    assert EndsWith(tmp[|tmp| - 1], ".tmp." + nonce);
    assert (dir + [name])[|dir|] == name && |tmp[|dir|]| > |name|;
  }

  function TmpName(target: Path, nonce: string): Path
    requires target != []
  {
    target[..|target| - 1] + [target[|target| - 1] + ".tmp." + nonce]
  }

  function ResultOf(end: WriteEnd, target: Path, size: nat): Result
  {
    match end
    case Written => Stored(target, size)
    case WriteRaises => WriteFailed
    case WriteCancelled(_) => Interrupted
  }

  /** Where a validated upload goes: through the path guard, then written atomically. */
  method StoreUpload(
    tree: FileTree, root: Path, persona: string, subdir: string, rawName: string, freshName: string,
    content: Bytes, nonce: string, end: WriteEnd)
    returns (r: Result)
    requires Plain(persona) && Plain(subdir) && Plain(freshName) && Unused(tree.files, nonce)
    modifies tree
    ensures var target := Target(root, persona, subdir, rawName, freshName);
            && r == ResultOf(end, target, |content|)
            && tree.files == FilesAfterStore(old(tree.files), target, content, TmpName(target, nonce), end)
  {
    var filename := SanitizeName(rawName, freshName);
    var resolved := SafeResolve(root, [persona, subdir, filename]);
    TargetResolves(root, persona, subdir, rawName, freshName);
    if resolved.None? {
      return BadName;
    }
    var dir := root + [persona, subdir];
    TmpIsNew(tree.files, dir, filename, nonce);
    assert resolved.value == dir + [filename];
    tree.StoreAtomically(resolved.value, content, TmpName(resolved.value, nonce), end);
    r := ResultOf(end, resolved.value, |content|);
  }

  /**
    * `_save_upload`. `freshName` and `nonce` are made from new UUIDs, `end` says how writing the
    * temporary file ends. The decision is the one on the whole content; then exactly that content is
    * stored under the target, or the tree is as it was, or a cancelled write leaves its temporary file.
    */
  method SaveUpload(
    tree: FileTree, root: Path, persona: string, subdir: string, file: UploadFile, rawName: string,
    allowed: bool, prefixes: seq<Bytes>, maxBytes: nat, freshName: string, nonce: string, end: WriteEnd)
    returns (r: Result)
    requires Plain(persona) && Plain(subdir) && Plain(freshName) && Unused(tree.files, nonce)
    requires file.pos == 0
    modifies tree, file
    ensures file.closed
    ensures file.pos <= maxBytes + CHUNK_SIZE
    ensures var verdict := Decide(allowed, file.content, prefixes, maxBytes);
            var target := Target(root, persona, subdir, rawName, freshName);
            if verdict.Accept? then
              && r == ResultOf(end, target, |file.content|)
              && tree.files == FilesAfterStore(old(tree.files), target, file.content, TmpName(target, nonce), end)
            else r == Rejected(verdict) && tree.files == old(tree.files)
    ensures r == Rejected(UnsupportedMediaType) <==> !allowed || Foreign(file.content, prefixes)
    ensures r == Rejected(ContentTooLarge) <==>
              allowed && !Foreign(file.content, prefixes) && |file.content| > maxBytes
    ensures r.Stored? <==> Acceptable(allowed, file.content, prefixes, maxBytes) && end.Written?
    ensures r.Stored? ==>
              && r.path == root + [persona, subdir, SanitizeName(rawName, freshName)] && r.size == |file.content|
              && tree.files == old(tree.files)[r.path := file.content]
    ensures r == WriteFailed <==> Acceptable(allowed, file.content, prefixes, maxBytes) && end.WriteRaises?
    ensures r == Interrupted <==> Acceptable(allowed, file.content, prefixes, maxBytes) && end.WriteCancelled?
    ensures r.Rejected? || r.WriteFailed? ==> tree.files == old(tree.files)
  {
    VerdictIs(allowed, file.content, prefixes, maxBytes);
    if !allowed {
      file.Close();
      return Rejected(UnsupportedMediaType);
    }
    var verdict, buffer := ReadChecked(file, prefixes, maxBytes);
    file.Close();
    if !verdict.Accept? {
      return Rejected(verdict);
    }
    r := StoreUpload(tree, root, persona, subdir, rawName, freshName, buffer, nonce, end);
  }

  /** The files among which the pipeline chooses the newest upload of a kind. */
  function Candidates(files: map<Path, Bytes>, root: Path, persona: string, subdir: string): set<Path>
  {
    set p | p in files && |p| == |root| + 3 && p[..|root| + 2] == root + [persona, subdir]
  }

  function Added(target: Path, tmp: Path, end: WriteEnd): set<Path>
  {
    match end
    case Written => {target}
    case WriteRaises => {}
    case WriteCancelled(left) => if left.Some? then {tmp} else {}
  }

  /**
    * What an upload does to that choice. A stored one is a candidate with its content; a cancelled
    * one leaves the target alone, but its temporary file, whole or torn, becomes a candidate too.
    */
  lemma CandidatesAfter(
    files: map<Path, Bytes>, root: Path, persona: string, subdir: string, rawName: string, freshName: string,
    content: Bytes, nonce: string, end: WriteEnd)
    requires Plain(freshName) && Unused(files, nonce)
    ensures var target := Target(root, persona, subdir, rawName, freshName);
            var tmp := TmpName(target, nonce);
            var now := FilesAfterStore(files, target, content, tmp, end);
            Candidates(now, root, persona, subdir)
              == Candidates(files, root, persona, subdir) + Added(target, tmp, end)
  {
    var target := Target(root, persona, subdir, rawName, freshName);
    var tmp := TmpName(target, nonce);
    assert target[..|root| + 2] == root + [persona, subdir] && tmp[..|root| + 2] == root + [persona, subdir];
  }
}
