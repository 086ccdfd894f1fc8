/** The content-addressed blob store (snapshot.go): files named by the hexadecimal digest in a hash. */
module BlobStores {
  import opened Common
  import opened Snapshots

  type Byte = x: int | 0 <= x < 256
  type Blob = seq<Byte>
  /** File name to file content; a file may have been damaged from outside. */
  type Files = map<string, Blob>
  /** SHA-256 as 64 lower-case hexadecimal digits. */
  type Sha = Blob -> string

  ghost predicate ProducesHex(sha: Sha) {
    forall data: Blob :: |sha(data)| == SHA256_HEX_LENGTH && IsLowerHex(sha(data))
  }

  /** No two of the given blobs share a digest. */
  ghost predicate NoCollisionAmong(sha: Sha, blobs: set<Blob>) {
    forall a, b :: a in blobs && b in blobs && sha(a) == sha(b) ==> a == b
  }

  datatype StoreError = InvalidHash | NoSuchBlob | ChecksumMismatch | IoFailure

  /** `Verify`: the file exists and its recomputed hash is, character for character, the one asked for. */
  function Verify(sha: Sha, files: Files, hash: string): Result<(), StoreError> {
    match NormalizeHash(hash)
    case None => Err(InvalidHash)
    case Some(name) =>
      if name !in files then Err(NoSuchBlob)
      else if Canonical(sha(files[name])) != hash then Err(ChecksumMismatch)
      else Ok(())
  }

  /** `Open` and `Read`. */
  function Read(sha: Sha, files: Files, hash: string): Result<Blob, StoreError> {
    match Verify(sha, files, hash)
    case Err(error) => Err(error)
    case Ok(_) => Ok(files[NormalizeHash(hash).value])
  }

  /** The plain map that the store stands for: its undamaged files. */
  function Contents(sha: Sha, files: Files): map<string, Blob> {
    map name | name in files && sha(files[name]) == name :: files[name]
  }

  /** Files after a successful `PutHash`: a file that verifies is kept, anything else is replaced. */
  function AfterPut(sha: Sha, files: Files, hash: string, data: Blob): Files {
    if Verify(sha, files, hash).Ok? then files else files[sha(data) := data]
  }

  /** The file that such a call moves to quarantine: one is there, but it does not verify. */
  function Displaced(sha: Sha, files: Files, hash: string, data: Blob): seq<(string, Blob)> {
    if sha(data) in files && Verify(sha, files, hash).Err? then [(sha(data), files[sha(data)])] else []
  }

  lemma CanonicalName(hex: string)
    requires |hex| == SHA256_HEX_LENGTH && IsLowerHex(hex)
    ensures NormalizeHash(Canonical(hex)) == Some(hex)
  {
    assert Canonical(hex)[|HASH_PREFIX_SHA256|..] == hex;
  }

  lemma CanonicalIsInjective(a: string, b: string)
    requires Canonical(a) == Canonical(b)
    ensures a == b
  {
    assert Canonical(a)[|HASH_PREFIX_SHA256|..] == a;
    assert Canonical(b)[|HASH_PREFIX_SHA256|..] == b;
  }

  /** A read succeeds exactly on canonical hashes of the plain map, and returns the map's bytes. Any
      other spelling of a hash, however valid its digits, never reads. */
  lemma ReadIsLookup(sha: Sha, files: Files, hash: string, data: Blob)
    requires ProducesHex(sha)
    ensures Read(sha, files, hash) == Ok(data) <==>
              && hash == Canonical(sha(data))
              && sha(data) in Contents(sha, files) && Contents(sha, files)[sha(data)] == data
  {
    var hex := sha(data);
    CanonicalName(hex);
    if Read(sha, files, hash) == Ok(data) {
      assert hash == Canonical(hex);
    }
  }

  /** What a store that keeps its own rules may do in one operation. */
  datatype Operation =
    | PutBlob(hash: string, data: Blob)
    | Damage(name: string, content: Option<Blob>)
    | Collect(retained: set<string>)

  function Perform(sha: Sha, files: Files, op: Operation): Files {
    match op
    case PutBlob(hash, data) =>
      if NormalizeHash(hash) == Some(sha(data)) then AfterPut(sha, files, hash, data) else files
    case Damage(name, content) =>
      if content.None? then files - {name} else files[name := content.value]
    case Collect(retained) =>
      map name | name in files && StaysInPass(retained, name) :: files[name]
  }

  /** A pass looks only at names of the length of a digest. */
  predicate StaysInPass(retained: set<string>, name: string) {
    |name| != SHA256_HEX_LENGTH || Canonical(name) in retained
  }

  /** The same operation on a plain map from digest to bytes. */
  function OnMap(sha: Sha, plain: map<string, Blob>, op: Operation): map<string, Blob> {
    match op
    case PutBlob(hash, data) => if NormalizeHash(hash) == Some(sha(data)) then plain[sha(data) := data] else plain
    case Damage(name, content) =>
      if content.Some? && sha(content.value) == name then plain[name := content.value] else plain - {name}
    case Collect(retained) => map name | name in plain && Canonical(name) in retained :: plain[name]
  }

  lemma PutRefines(sha: Sha, files: Files, hash: string, data: Blob)
    requires ProducesHex(sha) && NormalizeHash(hash) == Some(sha(data))
    requires NoCollisionAmong(sha, files.Values + {data})
    ensures Contents(sha, AfterPut(sha, files, hash, data)) == Contents(sha, files)[sha(data) := data]
  {
    if Verify(sha, files, hash).Ok? {
      var stored := files[sha(data)];
      CanonicalIsInjective(sha(stored), sha(data)) by { VerifiedDigest(sha, files, hash, data); }
      assert stored in files.Values;
    }
    hide Verify, NormalizeHash, ProducesHex;
  }

  /** A file that verifies under a spelling of the digest has that digest. */
  lemma VerifiedDigest(sha: Sha, files: Files, hash: string, data: Blob)
    requires ProducesHex(sha) && NormalizeHash(hash) == Some(sha(data)) && Verify(sha, files, hash).Ok?
    ensures sha(data) in files && Canonical(sha(files[sha(data)])) == Canonical(sha(data))
  {
    CanonicalName(sha(files[sha(data)]));
  }

  lemma DamageRefines(sha: Sha, files: Files, name: string, content: Option<Blob>)
    ensures Contents(sha, Perform(sha, files, Damage(name, content)))
            == OnMap(sha, Contents(sha, files), Damage(name, content))
  {
    hide AfterPut;
  }

  lemma CollectRefines(sha: Sha, files: Files, retained: set<string>)
    requires ProducesHex(sha)
    ensures Contents(sha, Perform(sha, files, Collect(retained)))
            == OnMap(sha, Contents(sha, files), Collect(retained))
  {
    hide AfterPut, Canonical;
  }

  /** The bytes that an operation brings in. */
  function Brought(op: Operation): set<Blob> {
    match op
    case PutBlob(_, data) => {data}
    case Damage(_, content) => if content.Some? then {content.value} else {}
    case Collect(_) => {}
  }

  lemma OneOperationRefines(sha: Sha, files: Files, op: Operation)
    requires ProducesHex(sha) && NoCollisionAmong(sha, files.Values + Brought(op))
    ensures Contents(sha, Perform(sha, files, op)) == OnMap(sha, Contents(sha, files), op)
  {
    match op
    case PutBlob(hash, data) =>
      if NormalizeHash(hash) == Some(sha(data)) {
        PutRefines(sha, files, hash, data);
      }
      hide AfterPut, NormalizeHash, Contents;
    case Damage(name, content) => DamageRefines(sha, files, name, content);
    case Collect(retained) => CollectRefines(sha, files, retained);
  }

  function PerformAll(sha: Sha, files: Files, ops: seq<Operation>): Files {
    if ops == [] then files else Perform(sha, PerformAll(sha, files, ops[..|ops| - 1]), ops[|ops| - 1])
  }

  function AllOnMap(sha: Sha, plain: map<string, Blob>, ops: seq<Operation>): map<string, Blob> {
    if ops == [] then plain else OnMap(sha, AllOnMap(sha, plain, ops[..|ops| - 1]), ops[|ops| - 1])
  }

  /** Every blob in play: what the files held at first and what the operations brought in. */
  function InPlay(files: Files, ops: seq<Operation>): set<Blob> {
    if ops == [] then files.Values else InPlay(files, ops[..|ops| - 1]) + Brought(ops[|ops| - 1])
  }

  lemma {:induction false} FilesAreInPlay(sha: Sha, files: Files, ops: seq<Operation>)
    ensures PerformAll(sha, files, ops).Values <= InPlay(files, ops)
  {
    if ops != [] {
      FilesAreInPlay(sha, files, ops[..|ops| - 1]);
      hide Verify, NormalizeHash;
    }
  }

  /** Over every sequence of puts, damage from outside and collections in which no two blobs in play
      share a digest, the store behaves like the plain map: a read of a hash returns the bytes the
      map holds, and nothing when it holds none. */
  lemma {:induction false} StoreRefinesMap(sha: Sha, files: Files, ops: seq<Operation>)
    requires ProducesHex(sha) && NoCollisionAmong(sha, InPlay(files, ops))
    ensures Contents(sha, PerformAll(sha, files, ops)) == AllOnMap(sha, Contents(sha, files), ops)
  {
    if ops != [] {
      var front := ops[..|ops| - 1];
      FilesAreInPlay(sha, files, front);
      hide Perform, OnMap, Contents;
      StoreRefinesMap(sha, files, front);
      OneOperationRefines(sha, PerformAll(sha, files, front), ops[|ops| - 1]);
    }
  }

  /** Whatever happened to two stores, the same hash reads the same bytes from both, or the two
      results are themselves a collision of SHA-256. */
  lemma StoresAgree(sha: Sha, files1: Files, files2: Files, hash: string)
    requires Read(sha, files1, hash).Ok? && Read(sha, files2, hash).Ok?
    ensures sha(Read(sha, files1, hash).value) == sha(Read(sha, files2, hash).value)
    ensures NoCollisionAmong(sha, {Read(sha, files1, hash).value, Read(sha, files2, hash).value}) ==>
              Read(sha, files1, hash) == Read(sha, files2, hash)
  {
    CanonicalIsInjective(sha(Read(sha, files1, hash).value), sha(Read(sha, files2, hash).value));
  }

  // ------------------------------------------- digests without a collision

  function Power16(width: nat): nat {
    if width == 0 then 1 else 16 * Power16(width - 1)
  }

  function HexDigit(d: nat): char
    requires d < 16
  {
    "0123456789abcdef"[d]
  }

  lemma HexDigitDiffers(a: nat, b: nat)
    requires a < 16 && b < 16 && HexDigit(a) == HexDigit(b)
    ensures a == b
  {
  }

  /** The last `width` hexadecimal digits of a number. */
  function HexDigits(n: nat, width: nat): string {
    if width == 0 then "" else HexDigits(n / 16, width - 1) + [HexDigit(n % 16)]
  }

  lemma {:induction false} HexDigitsAreHex(n: nat, width: nat)
    ensures |HexDigits(n, width)| == width && IsLowerHex(HexDigits(n, width))
  {
    if width > 0 {
      HexDigitsAreHex(n / 16, width - 1);
    }
  }

  lemma {:induction false} HexDigitsDiffer(a: nat, b: nat, width: nat)
    requires a < Power16(width) && b < Power16(width) && HexDigits(a, width) == HexDigits(b, width)
    ensures a == b
  {
    if width > 0 {
      var x, y := HexDigits(a, width), HexDigits(b, width);
      HexDigitsAreHex(a / 16, width - 1);
      HexDigitsAreHex(b / 16, width - 1);
      assert x[..width - 1] == HexDigits(a / 16, width - 1) && y[..width - 1] == HexDigits(b / 16, width - 1);
      assert x[width - 1] == HexDigit(a % 16) && y[width - 1] == HexDigit(b % 16);
      HexDigitDiffers(a % 16, b % 16);
      hide HexDigit;
      HexDigitsDiffer(a / 16, b / 16, width - 1);
    }
  }

  function Position(blobs: seq<Blob>, blob: Blob): (at: nat)
    ensures at <= |blobs| && (blob in blobs <==> at < |blobs|)
    ensures at < |blobs| ==> blobs[at] == blob
  {
    if blobs == [] then 0 else if blobs[0] == blob then 0 else 1 + Position(blobs[1..], blob)
  }

  /** As long as there are enough digests, some digest function has no collision among given blobs. */
  lemma CollisionFreeDigestExists(blobs: seq<Blob>) returns (sha: Sha)
    requires |blobs| < Power16(SHA256_HEX_LENGTH)
    ensures ProducesHex(sha) && NoCollisionAmong(sha, set blob | blob in blobs)
  {
    sha := blob => HexDigits(Position(blobs, blob), SHA256_HEX_LENGTH);
    forall blob: Blob ensures |sha(blob)| == SHA256_HEX_LENGTH && IsLowerHex(sha(blob)) {
      HexDigitsAreHex(Position(blobs, blob), SHA256_HEX_LENGTH);
    }
    forall a, b | a in blobs && b in blobs && sha(a) == sha(b) ensures a == b {
      HexDigitsDiffer(Position(blobs, a), Position(blobs, b), SHA256_HEX_LENGTH);
    }
  }

  /** At most one file can have changed, and only by being moved to quarantine or replaced by bytes
      with the file's digest. */
  predicate OnlyTouches(sha: Sha, name: string, before: Files, after: Files) {
    && before - {name} == after - {name}
    && (name in after ==> (name in before && after[name] == before[name]) || sha(after[name]) == name)
  }

  /** No bytes that a file held are lost: the file still holds them, or they were added to the quarantine
      under its name. Nothing else was added there, and nothing was taken from it. */
  predicate NothingLost(before: Files, quarantine: seq<(string, Blob)>, after: Files, later: seq<(string, Blob)>) {
    && quarantine <= later
    && (forall name :: name in before ==>
          (name in after && after[name] == before[name]) || (name, before[name]) in later[|quarantine|..])
    && (forall k :: |quarantine| <= k < |later| ==> later[k].0 in before && later[k].1 == before[later[k].0])
  }

  /** The store object. Every call that reaches the disk may fail; a failed call may still have moved a
      bad file away or even put the new one in place. */
  class BlobStore {
    const sha: Sha
    var files: Files
    /** Quarantined files, oldest first, with the name they had. */
    var quarantined: seq<(string, Blob)>

    constructor (sha: Sha)
      ensures this.sha == sha && files == map[] && quarantined == []
    {
      this.sha := sha;
      files := map[];
      quarantined := [];
    }

    method DiskWorks() returns (works: bool)
    {
      works := *;
    }

    /** `quarantine`: rename the file away; the directory sync afterwards may still fail. */
    method Quarantine(name: string) returns (moved: bool)
      requires name in files
      modifies this
      ensures moved ==> files != old(files)
      ensures || (files == old(files) && quarantined == old(quarantined))
              || (files == old(files) - {name} && quarantined == old(quarantined) + [(name, old(files[name]))])
    {
      moved := DiskWorks();
      if !moved {
        return;
      }
      quarantined := quarantined + [(name, files[name])];
      files := files - {name};
      moved := DiskWorks();
    }

    method PutHash(hash: string, data: Blob) returns (r: Result<(), StoreError>)
      modifies this
      ensures NormalizeHash(hash).None? ==> r == Err(InvalidHash)
      ensures NormalizeHash(hash).Some? && NormalizeHash(hash).value != sha(data) ==>
                r.Err? && r.error in {ChecksumMismatch, IoFailure}
      ensures NormalizeHash(hash) != Some(sha(data)) ==> files == old(files) && quarantined == old(quarantined)
      ensures r.Ok? ==> NormalizeHash(hash) == Some(sha(data)) && files == Perform(sha, old(files), PutBlob(hash, data))
      ensures r.Ok? ==> quarantined == old(quarantined) + Displaced(sha, old(files), hash, data)
      ensures OnlyTouches(sha, sha(data), old(files), files)
      ensures NothingLost(old(files), old(quarantined), files, quarantined)
      ensures Verify(sha, old(files), hash).Ok? ==> files == old(files) && quarantined == old(quarantined)
    {
      var expected := NormalizeHash(hash);
      if expected.None? {
        return Err(InvalidHash);
      }
      var works := DiskWorks();
      if !works {
        return Err(IoFailure);
      }
      var actual := sha(data);
      if actual != expected.value {
        return Err(ChecksumMismatch);
      }
      r := Store(hash, data);
    }

    method Put(data: Blob) returns (r: Result<string, StoreError>)
      requires ProducesHex(sha)
      modifies this
      ensures r.Ok? ==> r.value == Canonical(sha(data)) && files == Perform(sha, old(files), PutBlob(r.value, data))
      ensures r.Ok? ==> quarantined == old(quarantined) + Displaced(sha, old(files), r.value, data)
      ensures r.Ok? ==> Read(sha, files, r.value).Ok?
      ensures Verify(sha, old(files), Canonical(sha(data))).Ok? ==>
                files == old(files) && quarantined == old(quarantined)
      ensures OnlyTouches(sha, sha(data), old(files), files)
      ensures NothingLost(old(files), old(quarantined), files, quarantined)
    {
      var works := DiskWorks();
      if !works {
        return Err(IoFailure);
      }
      var hash := Canonical(sha(data));
      CanonicalName(sha(data));
      var stored := Store(hash, data);
      if stored.Err? {
        return Err(stored.error);
      }
      return Ok(hash);
    }

    /** The locked tail that `Put` and `PutHash` share: keep a file that verifies, quarantine one that
        does not, then move the staged file into place. */
    method Store(hash: string, data: Blob) returns (r: Result<(), StoreError>)
      requires NormalizeHash(hash) == Some(sha(data))
      modifies this
      ensures r.Ok? ==> files == AfterPut(sha, old(files), hash, data)
      ensures r.Ok? ==> quarantined == old(quarantined) + Displaced(sha, old(files), hash, data)
      ensures OnlyTouches(sha, sha(data), old(files), files)
      ensures NothingLost(old(files), old(quarantined), files, quarantined)
      ensures Verify(sha, old(files), hash).Ok? ==> files == old(files) && quarantined == old(quarantined)
    {
      var name := sha(data);
      var verified := Verify(sha, files, hash);
      if verified.Ok? {
        return Ok(());
      } else if name in files {
        var moved := Quarantine(name);
        if !moved {
          return Err(IoFailure);
        }
      }
      var works := DiskWorks();
      if !works {
        return Err(IoFailure);
      }
      files := files[name := data];
      works := DiskWorks();
      if !works {
        return Err(IoFailure);
      }
      return Ok(());
    }

    /** Walks the files in any order; a removal may fail and then ends the walk. */
    method GC(retained: set<string>) returns (removed: nat, complete: bool)
      modifies this`files
      ensures complete ==> files == Perform(sha, old(files), Collect(retained))
      ensures forall name :: name in files ==> name in old(files) && files[name] == old(files)[name]
      ensures forall name :: name in old(files) && StaysInPass(retained, name) ==> name in files
      ensures forall name :: name in old(files) && (|name| != 64 || Canonical(name) in retained) ==> name in files
      ensures complete ==> forall name :: name in files ==> |name| != 64 || Canonical(name) in retained
      ensures removed == |old(files)| - |files|
    {
      hide Canonical, Perform;
      removed, complete := 0, true;
      var names := files.Keys;
      while names != {} && complete
        invariant names <= old(files).Keys
        invariant forall name :: name in files ==> name in old(files) && files[name] == old(files)[name]
        invariant forall name :: name in old(files) && (StaysInPass(retained, name) || name in names) ==> name in files
        invariant complete ==> forall name :: name in files && name !in names ==> StaysInPass(retained, name)
        invariant removed == |old(files)| - |files|
        decreases names, complete
      {
        var name :| name in names;
        names := names - {name};
        if |name| == SHA256_HEX_LENGTH && Canonical(name) !in retained {
          var works := DiskWorks();
          if works {
            OneFileLess(files, name);
            files := files - {name};
            removed := removed + 1;
          } else {
            complete := false;
          }
        }
      }
      if complete {
        CollectedExactly(sha, old(files), files, retained);
      }
    }
  }

  lemma CollectedExactly(sha: Sha, before: Files, after: Files, retained: set<string>)
    requires forall name :: name in after ==>
        name in before && after[name] == before[name] && StaysInPass(retained, name)
    requires forall name :: name in before && StaysInPass(retained, name) ==> name in after
    ensures after == Perform(sha, before, Collect(retained))
  {
    hide StaysInPass;
    assert after.Keys == Perform(sha, before, Collect(retained)).Keys;
  }

  lemma OneFileLess(files: Files, name: string)
    requires name in files
    ensures |files - {name}| == |files| - 1
  {
    assert (files - {name}).Keys == files.Keys - {name};
  }

  /** A put of bytes whose file is intact moves that file to quarantine, and writes the bytes again,
      exactly when the caller spelled the hash without its prefix. */
  lemma BareDigestQuarantinesIntactBlob(sha: Sha, files: Files, hash: string, data: Blob)
    requires ProducesHex(sha) && NormalizeHash(hash) == Some(sha(data))
    requires sha(data) in files && sha(files[sha(data)]) == sha(data)
    ensures Displaced(sha, files, hash, data) == [] <==> HASH_PREFIX_SHA256 <= hash
  {
    if HASH_PREFIX_SHA256 <= hash {
      assert hash == Canonical(sha(data));
    }
  }
}
