/**
  What a full-enumeration walker stores as a document's id and hash, and what the processor's
  retrieval side makes of that id later.
*/
module Locators {
  import opened Base
  import opened Text
  import opened Paths
  import opened Protocol
  import opened Pipeline
  import Delivery
  import Convergence

  function Last(parts: Parts): string {
    if parts == [] then "" else parts[|parts| - 1]
  }

  /** `str(path)` of a relative path: "." stands for no component at all. */
  function Printed(parts: Parts): string {
    if parts == [] then "." else Slashed(parts)
  }

  function FolderOf(parts: Parts): Option<string> {
    if |parts| <= 1 then None else Some(Slashed(parts[..|parts| - 1]))
  }

  // ---- a mounted directory ----

  /** Files by their absolute path, without symbolic links. */
  type Tree = map<Parts, Bytes>

  /** The mount root as configured, and the directory the job was started in. */
  datatype Mount = Mount(start: Parts, root: string)

  function Start(mount: Mount): Parts {
    if Absolute(mount.root) then [] else mount.start
  }

  function RootDirectory(mount: Mount): Parts {
    Follow(Start(mount), Components(mount.root))
  }

  /** `(root / locator).resolve()`. */
  function Joined(mount: Mount, locator: string): Parts {
    Follow(Start(mount), Components(mount.root) + Components(locator))
  }

  function Parents(parts: Parts): set<Parts> {
    set n | 0 <= n < |parts| :: parts[..n]
  }

  function Resolve(mount: Mount, locator: string): Result<Parts, string> {
    if Absolute(locator) then Err("locator must be relative to the mount root")
    else
      var resolved, root := Joined(mount, locator), RootDirectory(mount);
      if resolved != root && root !in Parents(resolved) then Err("locator escapes the mount root")
      else Ok(resolved)
  }

  /** An absolute root is taken from the file system's root, a relative one from where the job was started. */
  lemma RootExactly(mount: Mount)
    ensures var n := Normalise(Components(mount.root));
      RootDirectory(mount) ==
        if mount.root != "" && mount.root[0] == '/' then n.down
        else mount.start[..|mount.start| - Clamped(n.up, mount.start)] + n.down
  {
    hide Follow, Normalise, Components;
    FollowNormal(Start(mount), Components(mount.root));
  }

  function ReadFile(tree: Tree, path: Parts): Result<Bytes, string> {
    if path in tree then Ok(tree[path]) else Err("cannot read document file")
  }

  function DownloadFile(tree: Tree, mount: Mount, locator: string): Result<Bytes, string> {
    match Resolve(mount, locator)
    case Err(e) => Err(e)
    case Ok(path) => ReadFile(tree, path)
  }

  function HashOf(hash: Bytes -> string, data: Result<Bytes, string>): Result<Option<string>, string> {
    match data
    case Err(e) => Err(e)
    case Ok(bytes) => Ok(Some(hash(bytes)))
  }

  /** File names below the root, as a directory listing spells them; none when the root is itself the file. */
  predicate Names(names: Parts) {
    AllReal(names) && ".." !in names
  }

  /** The filesystem walker's candidate for the file at root / names. */
  function FileCandidate(
    tree: Tree, mount: Mount, names: Parts, hash: Bytes -> string, mime: string -> string
  ): Result<Candidate, string> {
    match ReadFile(tree, Follow(Start(mount), Components(mount.root) + names))
    case Err(e) => Err(e)
    case Ok(data) =>
      var name := Last(Components(mount.root) + names);
      Ok(Candidate(Printed(names), hash(data), Some(name), Some(mime(name)), FolderOf(names)))
  }

  /** The id parses back to the names it was built from. */
  lemma PrintedComponents(names: Parts)
    requires AllReal(names)
    ensures !Absolute(Printed(names)) && Components(Printed(names)) == names
  {
    if names == [] {
      SegmentsOfOne(".");
      assert ["."][1..] == [];
    } else {
      SegmentsOfRelative(names);
      ComponentsSlashed(names);
    }
  }

  /** The stored id resolves back to the very file it was made from, which is at or below the root. */
  lemma IdResolvesBack(mount: Mount, names: Parts)
    requires Names(names)
    ensures Resolve(mount, Printed(names)) == Ok(RootDirectory(mount) + names)
    ensures Joined(mount, Printed(names)) == Follow(Start(mount), Components(mount.root) + names)
  {
    hide Follow, Components, Printed, Absolute, AllReal, Parents;
    PrintedComponents(names);
    var root := RootDirectory(mount);
    FollowConcat(Start(mount), Components(mount.root), names);
    Descend(root, names);
    UnderRoot(root, root + names);
  }

  lemma Descend(root: Parts, names: Parts)
    requires ".." !in names
    ensures Follow(root, names) == root + names
  {
    FollowNormal(root, names);
    NormalOfDescent(names);
  }

  /** Folder and file name of a candidate are the two halves of its id. */
  lemma FolderAndName(
    tree: Tree, mount: Mount, names: Parts, hash: Bytes -> string, mime: string -> string)
    requires names != [] && FileCandidate(tree, mount, names, hash, mime).Ok?
    ensures var c := FileCandidate(tree, mount, names, hash, mime).value;
      && c.fileName.Some?
      && c.driveItemId == (if c.folderPath.Some? then c.folderPath.value + "/" else "") + c.fileName.value
      && (c.folderPath.None? <==> |names| == 1)
      && c.mimeType == Some(mime(c.fileName.value))
  {
    hide Follow, Components, Join;
    var front, last := names[..|names| - 1], names[|names| - 1];
    assert Last(Components(mount.root) + names) == last;
    assert names == front + [last];
    if front != [] {
      SlashedSnoc(front, last);
    } else {
      OneSegment(last);
    }
  }

  lemma OneSegment(a: string)
    ensures Slashed([a]) == a
  {
  }

  lemma FileIdsDiffer(names: Parts, others: Parts)
    requires AllReal(names) && AllReal(others) && Printed(names) == Printed(others)
    ensures names == others
  {
    PrintedComponents(names);
    PrintedComponents(others);
  }

  /**
    A locator is accepted exactly when it is relative and its normal form either never leaves the
    root or comes back through the very directories it left.
  */
  lemma AcceptedExactly(mount: Mount, locator: string)
    ensures var root, n := RootDirectory(mount), Normalise(Components(locator));
      var stem := |root| - Clamped(n.up, root);
      && Joined(mount, locator) == root[..stem] + n.down
      && (Resolve(mount, locator).Ok? <==> !Absolute(locator) && root[stem..] <= n.down)
      && (Resolve(mount, locator).Ok? ==>
            root <= Resolve(mount, locator).value && Resolve(mount, locator).value == root[..stem] + n.down)
  {
    var root, n := RootDirectory(mount), Normalise(Components(locator));
    var stem := |root| - Clamped(n.up, root);
    FollowConcat(Start(mount), Components(mount.root), Components(locator));
    FollowNormal(root, Components(locator));
    var resolved := root[..stem] + n.down;
    UnderRoot(root, resolved);
    assert root == root[..stem] + root[stem..];
    if root <= resolved {
      assert root[stem..] == resolved[stem..|root|] == n.down[..|root| - stem];
    }
    if root[stem..] <= n.down {
      assert resolved[..|root|] == root;
    }
  }

  /**
    A locator that climbs k levels and then descends is accepted exactly when the descent begins with
    the names of the directories it left; without climbing it always is.
  */
  lemma ClimbsExactly(mount: Mount, k: nat, names: Parts)
    requires Names(names) && k + |names| > 0
    ensures var root, locator := RootDirectory(mount), Slashed(Ups(k) + names);
      var left := if k <= |root| then k else |root|;
      && (Resolve(mount, locator).Ok? <==> root[|root| - left..] <= names)
      && (Resolve(mount, locator).Ok? ==> Resolve(mount, locator).value == root[..|root| - left] + names)
  {
    hide Follow, Components, Join, Normalise, Resolve;
    var parts := Ups(k) + names;
    assert AllReal(parts);
    ComponentsSlashed(parts);
    SegmentsOfRelative(parts);
    NormalOfClimb(k, names);
    AcceptedExactly(mount, Slashed(parts));
  }

  lemma UnderRoot(root: Parts, resolved: Parts)
    ensures resolved == root || root in Parents(resolved) <==> root <= resolved
  {
    if root <= resolved && root != resolved {
      assert resolved[..|root|] == root;
    }
  }

  /** On an unchanged tree the retrieval side reads the candidate's own bytes and hashes them alike. */
  lemma FileHashAgrees(
    tree: Tree, mount: Mount, names: Parts, hash: Bytes -> string, mime: string -> string)
    requires Names(names)
    ensures var c := FileCandidate(tree, mount, names, hash, mime);
      var data := DownloadFile(tree, mount, Printed(names));
      && (c.Ok? <==> data.Ok?)
      && (c.Ok? ==> c.value.driveItemId == Printed(names) && c.value.contentHash == hash(data.value)
                    && HashOf(hash, data) == Ok(Some(c.value.contentHash)))
  {
    IdResolvesBack(mount, names);
    FollowConcat(Start(mount), Components(mount.root), names);
  }

  // ---- a blob container ----

  datatype BlobItem = BlobItem(metadata: Option<map<string, string>>, contentType: Option<string>, data: Bytes)

  type Container = map<string, BlobItem>

  function StoredSha256(blob: BlobItem): Option<string> {
    if blob.metadata.Some? && "sha256" in blob.metadata.value then Some(blob.metadata.value["sha256"]) else None
  }

  /** The stored digest when there is a non-empty one, else the digest of the bytes. */
  function BlobHash(blob: BlobItem, hash: Bytes -> string): string {
    Or(StoredSha256(blob), Some(hash(blob.data))).value
  }

  /** The root of a pure POSIX path: exactly two leading slashes are kept. */
  function Anchor(s: string): string {
    if !Absolute(s) then ""
    else if |s| >= 2 && s[1] == '/' && (|s| == 2 || s[2] != '/') then "//"
    else "/"
  }

  /** `PurePosixPath(s).as_posix()`. */
  function AsPosix(s: string): string {
    var parts := Components(s);
    if Anchor(s) == "" then Printed(parts) else Anchor(s) + Slashed(parts)
  }

  /** No leading slash, one, exactly two, and three or more. */
  lemma AnchorExactly(rest: string)
    ensures !Absolute(rest) ==>
      && Anchor(rest) == "" && Anchor("/" + rest) == "/" && Anchor("//" + rest) == "//" && Anchor("///" + rest) == "/"
  {
    assert ("/" + rest)[0] == '/' && (rest != "" ==> ("/" + rest)[1] == rest[0]);
    assert ("//" + rest)[0] == ("//" + rest)[1] == '/' && (rest != "" ==> ("//" + rest)[2] == rest[0]);
    assert ("///" + rest)[0] == ("///" + rest)[1] == ("///" + rest)[2] == '/';
  }

  predicate Listed(name: string, prefix: string) {
    prefix <= name
  }

  function Relative(name: string, prefix: string): string {
    if prefix <= name then name[|prefix|..] else name
  }

  function BlobFolder(rel: string): Option<string> {
    var parts := Components(rel);
    var folder := if parts == [] then [] else parts[..|parts| - 1];
    if Anchor(rel) == "" then FolderOf(parts) else Some(Anchor(rel) + Slashed(folder))
  }

  /** The blob walker's candidate; directory markers and unsupported suffixes give none. */
  function BlobCandidate(
    container: Container, name: string, prefix: string,
    supported: string -> bool, hash: Bytes -> string, mime: string -> string
  ): Option<Candidate>
    requires name in container
  {
    var rel := Relative(name, prefix);
    var file := Last(Components(rel));
    if (name != "" && name[|name| - 1] == '/') || !supported(file) then None
    else
      var blob := container[name];
      Some(Candidate(AsPosix(rel), BlobHash(blob, hash), Some(file), Or(blob.contentType, Some(mime(file))),
                     BlobFolder(rel)))
  }

  function FetchBlobHash(
    container: Container, prefix: string, id: string, hash: Bytes -> string
  ): Result<Option<string>, string> {
    if prefix + id in container then Ok(Some(BlobHash(container[prefix + id], hash))) else Err("cannot read blob")
  }

  function DownloadBlob(container: Container, prefix: string, id: string): Result<Bytes, string> {
    if prefix + id in container then Ok(container[prefix + id].data) else Err("cannot read blob")
  }

  /** No segment that a pure path would drop; the anchor and the lone "." are kept as they are. */
  predicate Canonical(rel: string) {
    && rel != ""
    && (rel == "." || rel == Anchor(rel) || AllReal(Segments(rel[|Anchor(rel)|..])))
  }

  lemma AnchorPrefix(s: string)
    ensures Anchor(s) <= s && Components(s) == Components(s[|Anchor(s)|..])
  {
    var a := Anchor(s);
    if a != "" {
      assert s[1..][0..] == s[1..];
      assert Segments(s) == [""] + Segments(s[1..]);
      assert Kept(Segments(s)) == Kept(Segments(s[1..]));
      if a == "//" {
        assert s[1..][1..] == s[2..];
        assert Segments(s[1..]) == [""] + Segments(s[2..]);
      }
    }
  }

  /** The stored id is the name after the prefix exactly when that name is canonical. */
  lemma AsPosixExactly(rel: string)
    ensures AsPosix(rel) == rel <==> Canonical(rel)
  {
    var a := Anchor(rel);
    var rest := rel[|a|..];
    AnchorPrefix(rel);
    PrintedBack(rest);
    assert rel == a + rest;
    if rel == "." {
      SegmentsOfOne(".");
    } else if a == "" && Components(rel) == [] && AllReal(Segments(rel)) {
      KeptAll(Segments(rel));
    }
  }

  /** Reading back prefix + id finds the listed blob in every container, exactly for canonical names. */
  lemma BlobHashAgrees(prefix: string, name: string, blob: BlobItem, hash: Bytes -> string)
    requires Listed(name, prefix)
    ensures var id := AsPosix(Relative(name, prefix));
      Canonical(Relative(name, prefix)) <==>
      forall c: Container :: name in c && c[name] == blob ==>
        && FetchBlobHash(c, prefix, id, hash) == Ok(Some(BlobHash(blob, hash)))
        && DownloadBlob(c, prefix, id) == Ok(blob.data)
  {
    var rel := Relative(name, prefix);
    AsPosixExactly(rel);
    assert name == prefix + rel;
    var alone: Container := map[name := blob];
    assert name in alone && alone[name] == blob;
    if AsPosix(rel) != rel {
      assert (prefix + AsPosix(rel))[|prefix|..] == AsPosix(rel);
      assert prefix + AsPosix(rel) !in alone;
      assert DownloadBlob(alone, prefix, AsPosix(rel)).Err?;
    }
  }

  /** The blob has no digest in its metadata, or an empty one. */
  predicate NoDigest(blob: BlobItem) {
    blob.metadata == None || "sha256" !in blob.metadata.value || blob.metadata.value["sha256"] == ""
  }

  /** Without a digest both sides hash the blob's own bytes, with one both sides take the digest. */
  lemma BlobHashExactly(
    container: Container, name: string, prefix: string,
    supported: string -> bool, hash: Bytes -> string, mime: string -> string)
    requires name in container && Listed(name, prefix)
    ensures var blob, rel := container[name], Relative(name, prefix);
      var c := BlobCandidate(container, name, prefix, supported, hash, mime);
      var digest := if NoDigest(blob) then hash(blob.data) else blob.metadata.value["sha256"];
      && (c.Some? ==> c.value.contentHash == digest)
      && (Canonical(rel) ==> FetchBlobHash(container, prefix, AsPosix(rel), hash) == Ok(Some(digest)))
  {
    BlobHashAgrees(prefix, name, container[name], hash);
  }

  /** A changed blob without a digest makes the message stale. */
  lemma ChangedBlobIsStale(
    before: Container, now: Container, name: string, prefix: string,
    supported: string -> bool, hash: Bytes -> string, mime: string -> string, msg: Message, io: Io)
    requires name in before && name in now && Listed(name, prefix) && Canonical(Relative(name, prefix))
    requires NoDigest(before[name]) && NoDigest(now[name])
    requires hash(before[name].data) != hash(now[name].data)
    requires BlobCandidate(before, name, prefix, supported, hash, mime).Some?
    requires var c := BlobCandidate(before, name, prefix, supported, hash, mime).value;
      msg.driveItemId == c.driveItemId && msg.contentHash == c.contentHash
    requires io.fetched == FetchBlobHash(now, prefix, msg.driveItemId, hash)
    ensures Judge(msg, io) == Skip(HASH_MISMATCH)
  {
    BlobHashExactly(before, name, prefix, supported, hash, mime);
    BlobHashExactly(now, name, prefix, supported, hash, mime);
  }

  /** So does a changed file. */
  lemma ChangedFileIsStale(
    before: Tree, now: Tree, mount: Mount, names: Parts, hash: Bytes -> string, mime: string -> string,
    msg: Message, io: Io)
    requires Names(names) && FileCandidate(before, mount, names, hash, mime).Ok?
    requires FileCandidate(now, mount, names, hash, mime).Ok?
    requires var path := RootDirectory(mount) + names;
      path in before && path in now && hash(before[path]) != hash(now[path])
    requires var c := FileCandidate(before, mount, names, hash, mime).value;
      msg.driveItemId == c.driveItemId && msg.contentHash == c.contentHash
    requires io.fetched == HashOf(hash, DownloadFile(now, mount, msg.driveItemId))
    ensures Judge(msg, io) == Skip(HASH_MISMATCH)
  {
    hide Follow, Components, Printed, AllReal;
    FollowConcat(Start(mount), Components(mount.root), names);
    Descend(RootDirectory(mount), names);
    FileHashAgrees(now, mount, names, hash, mime);
  }

  // ---- which blobs are documents ----

  /** Everything after the last slash. */
  predicate IsFileName(rel: string, file: string) {
    && '/' !in file && |file| <= |rel| && rel[|rel| - |file|..] == file
    && (|file| < |rel| ==> rel[|rel| - |file| - 1] == '/')
  }

  /** A blob with a plain name is a document exactly when its file name is supported; folder and name make up the id. */
  lemma BlobDocumentExactly(
    container: Container, name: string, prefix: string, file: string,
    supported: string -> bool, hash: Bytes -> string, mime: string -> string)
    requires name in container && Listed(name, prefix) && AllReal(Segments(Relative(name, prefix)))
    requires IsFileName(Relative(name, prefix), file)
    ensures var c := BlobCandidate(container, name, prefix, supported, hash, mime);
      && (c.Some? <==> supported(file))
      && (c.Some? ==>
            && c.value.fileName == Some(file)
            && c.value.driveItemId == Relative(name, prefix)
            && c.value.driveItemId == (if c.value.folderPath.Some? then c.value.folderPath.value + "/" else "") + file)
  {
    var rel := Relative(name, prefix);
    var parts := Segments(rel);
    SlashedSegments(rel);
    KeptAll(parts);
    PlainName(rel);
    LastSegment(rel, file);
    AsPosixExactly(rel);
    assert name == prefix + rel;
    FolderOfParts(parts);
  }

  lemma PlainName(rel: string)
    requires AllReal(Segments(rel))
    ensures rel != "" && Anchor(rel) == "" && Canonical(rel) && rel[|rel| - 1] != '/'
  {
    hide Join, Segments, FolderOf, Kept, Components;
    var parts := Segments(rel);
    SlashedSegments(rel);
    SegmentsOfRelative(parts);
    assert Anchor(rel) == "" && rel[0..] == rel;
    hide Anchor;
    FolderOfParts(parts);
    RealEnd(parts);
    assert rel[|rel| - 1] == Last(parts)[|Last(parts)| - 1];
  }

  lemma RealEnd(parts: Parts)
    requires AllReal(parts) && parts != []
    ensures Last(parts) != "" && Last(parts)[|Last(parts)| - 1] != '/'
  {
    assert Real(parts[|parts| - 1]);
  }

  /** The last segment is what follows the last slash. */
  lemma LastSegment(rel: string, file: string)
    requires IsFileName(rel, file)
    ensures Last(Segments(rel)) == file
  {
    hide Segments, Join, FolderOf;
    var parts := Segments(rel);
    SlashedSegments(rel);
    FolderOfParts(parts);
    var last := Last(parts);
    EndsAlike(rel, file, last);
  }

  /** Two tails without a slash, each right behind one or the whole string, are the same. */
  lemma EndsAlike(rel: string, file: string, last: string)
    requires IsFileName(rel, file) && '/' !in last
    requires rel == last || exists folder: string :: rel == folder + "/" + last
    ensures file == last
  {
    if rel != last {
      var folder: string :| rel == folder + "/" + last;
      assert rel[|rel| - |last| - 1] == '/' && rel[|rel| - |last|..] == last;
    }
    assert forall i :: |rel| - |file| <= i < |rel| ==> rel[i] == file[i - (|rel| - |file|)];
    assert forall i :: |rel| - |last| <= i < |rel| ==> rel[i] == last[i - (|rel| - |last|)];
    assert |file| == |last|;
  }

  lemma FolderOfParts(parts: Parts)
    requires parts != []
    ensures Slashed(parts) == (if FolderOf(parts).Some? then FolderOf(parts).value + "/" else "") + Last(parts)
    ensures Slashed(parts) == Last(parts) || exists folder: string :: Slashed(parts) == folder + "/" + Last(parts)
  {
    var front, last := parts[..|parts| - 1], parts[|parts| - 1];
    assert parts == front + [last];
    if front == [] {
      OneSegment(last);
    } else {
      SlashedSnoc(front, last);
    }
  }

  lemma BlobIdsDiffer(prefix: string, name: string, other: string)
    requires Listed(name, prefix) && Listed(other, prefix)
    requires Canonical(Relative(name, prefix)) && Canonical(Relative(other, prefix))
    requires AsPosix(Relative(name, prefix)) == AsPosix(Relative(other, prefix))
    ensures name == other
  {
    AsPosixExactly(Relative(name, prefix));
    AsPosixExactly(Relative(other, prefix));
  }

  lemma KeptSkips(a: string, b: string)
    requires Real(a) && Real(b)
    ensures Kept([a, "", b]) == Kept([a, b])
  {
    assert [a, "", b][1..] == ["", b] && ["", b][1..] == [b] && [a, b][1..] == [b];
  }

  /** Without canonical names two blobs may share one id, and with it one row. */
  lemma DoubledSlashCollides()
    ensures AsPosix("a//b") == AsPosix("a/b") == "a/b"
    ensures !Canonical("a//b") && Canonical("a/b")
  {
    hide Segments, Join, Kept;
    SegmentsOfOne("b");
    SegmentsOfTwo("a", "b");
    SegmentsOfTwo("", "b");
    SegmentsOfTwo("a", "/b");
    assert "a" + "/" + "b" == "a/b" && "" + "/" + "b" == "/b" && "a" + "/" + "/b" == "a//b";
    assert Segments("a/b") == ["a", "b"] && Segments("a//b") == ["a", "", "b"];
    KeptSkips("a", "b");
    KeptAll(["a", "b"]);
    SlashedSegments("a/b");
    AsPosixExactly("a/b");
    AsPosixExactly("a//b");
  }

  // ---- the re-check ----

  /** A message that carries the hash the retrieval side computes is never skipped as stale. */
  lemma FreshIsNotStale(msg: Message, io: Io)
    requires io.fetched == Ok(Some(msg.contentHash))
    ensures Judge(msg, io) != Skip(HASH_MISMATCH)
  {
    if io.downloaded.Ok? {
      var e := io.extract(io.downloaded.value, msg.mimeType);
      if e.NoExtractor? {
        Delivery.ReasonsDiffer(msg.mimeType, e.error);
      }
    }
  }

  /** An unchanged file always passes the re-check. */
  lemma UnchangedFilePasses(
    tree: Tree, mount: Mount, names: Parts, hash: Bytes -> string, mime: string -> string, msg: Message, io: Io)
    requires Names(names) && FileCandidate(tree, mount, names, hash, mime).Ok?
    requires var c := FileCandidate(tree, mount, names, hash, mime).value;
      msg.driveItemId == c.driveItemId && msg.contentHash == c.contentHash
    requires io.downloaded == DownloadFile(tree, mount, msg.driveItemId)
    requires io.fetched == HashOf(hash, io.downloaded)
    ensures io.downloaded.Ok? && Judge(msg, io) != Skip(HASH_MISMATCH)
  {
    FileHashAgrees(tree, mount, names, hash, mime);
    FreshIsNotStale(msg, io);
  }

  /** An unchanged blob with a canonical name always passes the re-check. */
  lemma UnchangedBlobPasses(
    container: Container, name: string, prefix: string,
    supported: string -> bool, hash: Bytes -> string, mime: string -> string, msg: Message, io: Io)
    requires name in container && Listed(name, prefix) && Canonical(Relative(name, prefix))
    requires BlobCandidate(container, name, prefix, supported, hash, mime).Some?
    requires var c := BlobCandidate(container, name, prefix, supported, hash, mime).value;
      msg.driveItemId == c.driveItemId && msg.contentHash == c.contentHash
    requires io.downloaded == DownloadBlob(container, prefix, msg.driveItemId)
    requires io.fetched == FetchBlobHash(container, prefix, msg.driveItemId, hash)
    ensures io.downloaded == Ok(container[name].data) && Judge(msg, io) != Skip(HASH_MISMATCH)
  {
    BlobHashAgrees(prefix, name, container[name], hash);
    FreshIsNotStale(msg, io);
  }

  // ---- both are sources in the sense of the convergence theorem ----

  /** A mounted file is an item of the source: what is listed and what is retrieved agree with its bytes. */
  lemma MountedFileServes(
    lib: Convergence.Library, w: Convergence.Live, origin: Origin, tree: Tree, mount: Mount, names: Parts)
    requires origin.syncStateId == lib.home && Names(names)
    requires RootDirectory(mount) + names in tree
    requires Printed(names) in w.src && w.src[Printed(names)] == tree[RootDirectory(mount) + names]
    ensures var mime := (file: string) => lib.mime(Printed(names));
      var c := FileCandidate(tree, mount, names, lib.hash, mime);
      var io := Convergence.SourceIo(lib, w.src, Printed(names));
      && c.Ok? && Convergence.Enumerated(lib, w, origin, c.value)
      && io.downloaded == DownloadFile(tree, mount, Printed(names))
      && io.fetched == HashOf(lib.hash, io.downloaded)
  {
    hide Follow, Components, Printed, AllReal;
    IdResolvesBack(mount, names);
    FollowConcat(Start(mount), Components(mount.root), names);
    Descend(RootDirectory(mount), names);
  }

  /**
    So is a blob whose name is canonical and whose stored digest, if any, is that of its bytes; it is
    listed as the theorem wants exactly when its content type, or the table's, is the item's.
  */
  lemma ListedBlobServes(
    lib: Convergence.Library, w: Convergence.Live, origin: Origin,
    container: Container, name: string, prefix: string, supported: string -> bool, mime: string -> string)
    requires origin.syncStateId == lib.home && name in container && Listed(name, prefix)
    requires Canonical(Relative(name, prefix))
    requires BlobHash(container[name], lib.hash) == lib.hash(container[name].data)
    requires var id := AsPosix(Relative(name, prefix)); id in w.src && w.src[id] == container[name].data
    ensures var id := AsPosix(Relative(name, prefix));
      var io := Convergence.SourceIo(lib, w.src, id);
      var table := mime(Last(Components(Relative(name, prefix))));
      var c := BlobCandidate(container, name, prefix, supported, lib.hash, mime);
      && (c.Some? ==> (Convergence.Enumerated(lib, w, origin, c.value) <==>
                         Or(container[name].contentType, Some(table)) == Some(lib.mime(id))))
      && io.downloaded == DownloadBlob(container, prefix, id)
      && io.fetched == FetchBlobHash(container, prefix, id, lib.hash)
  {
    BlobHashAgrees(prefix, name, container[name], lib.hash);
  }
}
