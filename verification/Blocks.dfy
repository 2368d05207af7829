/** Receiving a file block by block into a resumable part file (src/storage.rs). */
module Blocks {
  import opened Results

  type Byte = int
  type Bytes = seq<Byte>
  type Hash = string

  const BLOCK := 1024 * 1024
  const MAX_SIZE := 1024 * 1024 * 1024 * 1024

  datatype Manifest = Manifest(size: nat, hash: Hash, blocks: seq<Hash>)

  /** BLAKE3, of whole files and of blocks. */
  type Hashing = Bytes -> Hash

  ghost predicate Injective(hash: Hashing) {
    forall a, b :: hash(a) == hash(b) ==> a == b
  }

  predicate ValidHash(h: Hash) {
    |h| == 64 && forall c :: c in h ==> '0' <= c <= '9' || 'a' <= c <= 'f'
  }

  ghost predicate Wellformed(hash: Hashing) {
    forall a {:trigger hash(a)} :: ValidHash(hash(a))
  }

  /** `div_ceil`. */
  function Count(size: nat): nat {
    (size + BLOCK - 1) / BLOCK
  }

  predicate Valid(m: Manifest) {
    m.size <= MAX_SIZE && |m.blocks| == Count(m.size) && ValidHash(m.hash) && forall h :: h in m.blocks ==> ValidHash(h)
  }

  function Offset(index: nat): nat {
    index * BLOCK
  }

  /** The subtraction of `block_len` on u64: None where it would underflow. */
  function Minus(a: nat, b: nat): Option<nat> {
    if a < b then None else Some(a - b)
  }

  function BlockLength(m: Manifest, index: nat): Result<nat> {
    if index >= |m.blocks| then Err(BlockOutOfRange)
    else
      match Minus(m.size, Offset(index))
      case None => Err(SizeUnderflow)
      case Some(rest) => Ok(if rest < BLOCK then rest else BLOCK)
  }

  /** For a validated manifest `block_len` never underflows, and the blocks tile the file without gap or overlap. */
  lemma BlocksTile(m: Manifest, index: nat)
    requires Valid(m) && index < |m.blocks|
    ensures BlockLength(m, index).Ok?
    ensures 0 < BlockLength(m, index).value <= BLOCK
    ensures Offset(index) + BlockLength(m, index).value == if index + 1 < |m.blocks| then Offset(index + 1) else m.size
  {
  }

  /** Without the block count of `validate` the subtraction does underflow. */
  lemma UnvalidatedUnderflows(m: Manifest, index: nat)
    requires index < |m.blocks|
    ensures BlockLength(m, index).Err? <==> m.size < Offset(index)
    ensures BlockLength(m, index).Err? ==> |m.blocks| != Count(m.size)
  {
  }

  function Length(m: Manifest, index: nat): nat
    requires Valid(m) && index < |m.blocks|
  {
    BlocksTile(m, index);
    BlockLength(m, index).value
  }

  function End(m: Manifest, index: nat): (e: nat)
    requires Valid(m) && index < |m.blocks|
    ensures Offset(index) < e <= m.size
  {
    BlocksTile(m, index);
    Offset(index) + Length(m, index)
  }

  /** `read_exact` of a block succeeds and hashes to the manifest's entry. */
  predicate Holds(hash: Hashing, m: Manifest, file: Bytes, index: nat)
    requires Valid(m) && index < |m.blocks|
  {
    End(m, index) <= |file| && hash(file[Offset(index)..End(m, index)]) == m.blocks[index]
  }

  predicate Complete(hash: Hashing, m: Manifest, file: Bytes)
    requires Valid(m)
  {
    forall i :: 0 <= i < |m.blocks| ==> Holds(hash, m, file, i)
  }

  /** The block of an absolute position. */
  lemma BlockOf(m: Manifest, at: nat) returns (index: nat)
    requires Valid(m) && at < m.size
    ensures index < |m.blocks| && Offset(index) <= at < End(m, index)
  {
    index := at / BLOCK;
    BlocksTile(m, index);
  }

  /** At most one content of the right length has the manifest's block hashes. */
  lemma ContentIsUnique(hash: Hashing, m: Manifest, a: Bytes, b: Bytes)
    requires Injective(hash) && Valid(m) && |a| <= m.size && |b| <= m.size
    requires Complete(hash, m, a) && Complete(hash, m, b)
    ensures a == b && |a| == m.size
  {
    if m.size > 0 {
      var last := BlockOf(m, m.size - 1);
      assert Holds(hash, m, a, last) && Holds(hash, m, b, last);
    }
    forall k | 0 <= k < m.size
      ensures a[k] == b[k]
    {
      var i := BlockOf(m, k);
      assert Holds(hash, m, a, i) && Holds(hash, m, b, i);
      var x, y := a[Offset(i)..End(m, i)], b[Offset(i)..End(m, i)];
      assert hash(x) == hash(y) && x == y;
      assert a[k] == x[k - Offset(i)] && b[k] == y[k - Offset(i)];
    }
  }

  // ---- Manifests of files ----

  function BlockHashes(hash: Hashing, file: Bytes): seq<Hash>
    decreases |file|
  {
    if |file| == 0 then []
    else
      var n := if |file| < BLOCK then |file| else BLOCK;
      [hash(file[..n])] + BlockHashes(hash, file[n..])
  }

  function ManifestOf(hash: Hashing, file: Bytes): Manifest {
    Manifest(|file|, hash(file), BlockHashes(hash, file))
  }

  lemma SliceOfRest(file: Bytes, n: nat, from: nat, to: nat)
    requires n <= |file| && from <= to <= |file| - n
    ensures file[n..][from..to] == file[n + from..n + to]
  {
  }

  lemma {:induction false} BlockHashesAt(hash: Hashing, file: Bytes, index: nat)
    requires index < Count(|file|)
    ensures |BlockHashes(hash, file)| == Count(|file|)
    ensures Offset(index) < |file|
    ensures BlockHashes(hash, file)[index] ==
      hash(file[Offset(index)..if Offset(index + 1) < |file| then Offset(index + 1) else |file|])
    decreases |file|
  {
    var n := if |file| < BLOCK then |file| else BLOCK;
    var rest := file[n..];
    CountOfRest(hash, file);
    if index > 0 {
      BlockHashesAt(hash, rest, index - 1);
      var from, to := Offset(index - 1), if Offset(index) < |rest| then Offset(index) else |rest|;
      SliceOfRest(file, n, from, to);
    }
  }

  lemma {:induction false} CountOfRest(hash: Hashing, file: Bytes)
    ensures |BlockHashes(hash, file)| == Count(|file|)
    decreases |file|
  {
    if |file| > 0 {
      var n := if |file| < BLOCK then |file| else BLOCK;
      CountOfRest(hash, file[n..]);
    }
  }

  /** The manifest of a file is valid and describes that file and, up to equal contents, no other. */
  lemma ManifestDescribes(hash: Hashing, file: Bytes)
    requires Wellformed(hash) && |file| <= MAX_SIZE
    ensures Valid(ManifestOf(hash, file)) && Complete(hash, ManifestOf(hash, file), file)
  {
    var m := ManifestOf(hash, file);
    CountOfRest(hash, file);
    forall h | h in m.blocks
      ensures ValidHash(h)
    {
      var i :| 0 <= i < |m.blocks| && m.blocks[i] == h;
      BlockHashesAt(hash, file, i);
    }
    forall i | 0 <= i < |m.blocks|
      ensures Holds(hash, m, file, i)
    {
      BlockHashesAt(hash, file, i);
      BlocksTile(m, i);
    }
  }

  /** `Manifest::from_file` on a file that does not change meanwhile. */
  method FromFile(hash: Hashing, file: Bytes) returns (r: Result<Manifest>)
    ensures r.Ok? <==> |file| <= MAX_SIZE
    ensures r.Ok? ==> r.value == ManifestOf(hash, file) && r.value.size == |file| && r.value.hash == hash(file)
    ensures r.Ok? ==> forall i :: 0 <= i < |r.value.blocks| ==>
      i * 1048576 < |file| && r.value.blocks[i] == hash(file[i * 1048576..if |file| < (i + 1) * 1048576 then |file| else (i + 1) * 1048576])
    ensures r.Ok? ==> |file| <= |r.value.blocks| * 1048576
  {
    ManifestBlocks(hash, file);
    if |file| > MAX_SIZE {
      return Err(FileTooLarge);
    }
    var blocks: seq<Hash> := [];
    var at := 0;
    assert file[0..] == file;
    while at < |file|
      invariant 0 <= at <= |file|
      invariant BlockHashes(hash, file) == blocks + BlockHashes(hash, file[at..])
    {
      var rest := |file| - at;
      var n := if rest < BLOCK then rest else BLOCK;
      NextBlock(hash, file, at, n, blocks);
      blocks := blocks + [hash(file[at..at + n])];
      at := at + n;
    }
    assert file[at..] == [];
    r := Ok(Manifest(|file|, hash(file), blocks));
  }

  /** The manifest of a file lists the hash of each of its blocks of a mebibyte, the last one possibly shorter. */
  lemma {:induction false} ManifestBlocks(hash: Hashing, file: Bytes)
    ensures var blocks := BlockHashes(hash, file);
      && |file| <= |blocks| * 1048576
      && forall i :: 0 <= i < |blocks| ==>
           i * 1048576 < |file| && blocks[i] == hash(file[i * 1048576..if |file| < (i + 1) * 1048576 then |file| else (i + 1) * 1048576])
    decreases |file|
  {
    if |file| > 0 {
      var n := if |file| < BLOCK then |file| else BLOCK;
      ManifestBlocks(hash, file[n..]);
      var blocks, rest := BlockHashes(hash, file), BlockHashes(hash, file[n..]);
      forall i | 0 <= i < |blocks|
        ensures i * 1048576 < |file| && blocks[i] == hash(file[i * 1048576..if |file| < (i + 1) * 1048576 then |file| else (i + 1) * 1048576])
      {
        if i > 0 {
          assert blocks[i] == rest[i - 1];
          var from, to := (i - 1) * 1048576, if |file[n..]| < i * 1048576 then |file[n..]| else i * 1048576;
          SliceOfRest(file, n, from, to);
        }
      }
    }
  }

  lemma NextBlock(hash: Hashing, file: Bytes, at: nat, n: nat, blocks: seq<Hash>)
    requires at < |file| && n == if |file| - at < BLOCK then |file| - at else BLOCK
    ensures blocks + BlockHashes(hash, file[at..]) == blocks + [hash(file[at..at + n])] + BlockHashes(hash, file[at + n..])
  {
    SliceOfRest(file, at, 0, n);
    assert file[at..][n..] == file[at + n..];
  }

  // ---- Writing blocks ----

  function Zeros(n: nat): Bytes {
    seq(n, i => 0)
  }

  /** A positioned write; a gap before it reads as zeros. */
  function Written(file: Bytes, at: nat, data: Bytes): (r: Bytes)
    ensures |r| == if |file| < at + |data| then at + |data| else |file|
    ensures r[at..at + |data|] == data
    ensures forall k :: 0 <= k < |file| && !(at <= k < at + |data|) ==> r[k] == file[k]
    ensures forall k :: |file| <= k < at ==> r[k] == 0
  {
    if |file| < at then file + Zeros(at - |file|) + data
    else file[..at] + data + if |file| <= at + |data| then [] else file[at + |data|..]
  }

  /** Writing a block whose hash fits completes that block and disturbs no other. */
  lemma WritingCompletesOneBlock(hash: Hashing, m: Manifest, file: Bytes, index: nat, data: Bytes)
    requires Valid(m) && index < |m.blocks| && |data| == Length(m, index) && hash(data) == m.blocks[index]
    ensures Holds(hash, m, Written(file, Offset(index), data), index)
    ensures forall j :: 0 <= j < |m.blocks| && Holds(hash, m, file, j) ==> Holds(hash, m, Written(file, Offset(index), data), j)
  {
    var after := Written(file, Offset(index), data);
    forall j | 0 <= j < |m.blocks| && j != index && Holds(hash, m, file, j)
      ensures Holds(hash, m, after, j)
    {
      BlocksTile(m, j);
      BlocksTile(m, index);
      BlocksAreApart(m, j, index);
      assert after[Offset(j)..End(m, j)] == file[Offset(j)..End(m, j)];
    }
  }

  lemma BlocksAreApart(m: Manifest, i: nat, j: nat)
    requires Valid(m) && i < |m.blocks| && j < |m.blocks| && i != j
    ensures End(m, i) <= Offset(j) || End(m, j) <= Offset(i)
  {
    BlocksTile(m, i);
    BlocksTile(m, j);
  }

  predicate Fits(hash: Hashing, m: Manifest, index: nat, data: Bytes)
    requires Valid(m)
  {
    index < |m.blocks| && |data| == Length(m, index) && hash(data) == m.blocks[index]
  }

  predicate Has(hash: Hashing, m: Manifest, file: Option<Bytes>, index: nat)
    requires Valid(m) && index < |m.blocks|
  {
    file.Some? && Holds(hash, m, file.value, index)
  }

  class Receiver {
    const hash: Hashing
    const manifest: Manifest
    /** The file at the destination, if there is one. */
    var target: Option<Bytes>
    var part: Bytes
    var finished: bool

    ghost predicate Sound()
      reads this
    {
      Valid(manifest) && |part| <= manifest.size
    }

    /** The end of `open`: a part file left by an earlier receiver is kept, unless it is too long. */
    constructor (hash: Hashing, manifest: Manifest, target: Option<Bytes>, part: Bytes)
      requires Valid(manifest) && |part| <= manifest.size
      ensures Sound() && this.hash == hash && this.manifest == manifest
      ensures this.target == target && this.part == part && !finished
    {
      this.hash := hash;
      this.manifest := manifest;
      this.target := target;
      this.part := part;
      finished := false;
    }

    method Put(index: nat, data: Bytes) returns (r: Result<()>)
      requires Sound()
      modifies `part
      ensures Sound()
      ensures r.Ok? <==> !finished && Fits(hash, manifest, index, data)
      ensures part == if r.Ok? then Written(old(part), Offset(index), data) else old(part)
      ensures forall j :: 0 <= j < |manifest.blocks| && Holds(hash, manifest, old(part), j) ==> Holds(hash, manifest, part, j)
      ensures r.Ok? ==> Holds(hash, manifest, part, index)
    {
      if finished {
        return Err(AlreadyComplete);
      }
      var length :- BlockLength(manifest, index);
      BlocksTile(manifest, index);
      if |data| != length {
        return Err(BlockMismatch);
      }
      if hash(data) != manifest.blocks[index] {
        return Err(BlockMismatch);
      }
      WritingCompletesOneBlock(hash, manifest, part, index, data);
      part := Written(part, Offset(index), data);
      r := Ok(());
    }

    /** What `missing_from` may reuse: the destination, else the given basis. */
    function Reusable(basis: Option<Bytes>): Option<Bytes>
      reads this
    {
      if target.Some? then target else basis
    }

    /** One turn of the loop of `missing_from`; true when the block has to be fetched. */
    method Reuse(existing: Option<Bytes>, index: nat) returns (r: Result<bool>)
      requires Sound() && index < |manifest.blocks|
      modifies `part
      ensures Sound()
      ensures forall j :: 0 <= j < |manifest.blocks| && Holds(hash, manifest, old(part), j) ==> Holds(hash, manifest, part, j)
      ensures r.Err? ==> finished
      ensures r == Ok(false) ==> Holds(hash, manifest, part, index)
      ensures r == Ok(true) ==> !Holds(hash, manifest, old(part), index) && !Has(hash, manifest, existing, index)
    {
      var from, to := Offset(index), End(manifest, index);
      if to <= |part| && hash(part[from..to]) == manifest.blocks[index] {
        return Ok(false);
      }
      if existing.Some? && to <= |existing.value| && hash(existing.value[from..to]) == manifest.blocks[index] {
        var put := Put(index, existing.value[from..to]);
        return if put.Ok? then Ok(false) else Err(AlreadyComplete);
      }
      r := Ok(true);
    }

    /**
     Every block that is not complete afterwards is listed, in ascending order; a listed one was in neither the
     part file nor the file to reuse. (A listed block may have become complete: a gap reads as zeros.)
     */
    method MissingFrom(basis: Option<Bytes>) returns (r: Result<seq<nat>>)
      requires Sound()
      modifies `part
      ensures Sound() && (r.Err? ==> finished)
      ensures r.Ok? ==> forall j :: 0 <= j < |manifest.blocks| && !Holds(hash, manifest, part, j) ==> j in r.value
      ensures r.Ok? ==> forall i, j :: 0 <= i < j < |r.value| ==> r.value[i] < r.value[j]
      ensures r.Ok? ==> forall i :: 0 <= i < |r.value| ==> Lacking(old(part), Reusable(basis), r.value[i])
      ensures r.Ok? ==> forall i :: i in r.value ==>
        && i < |manifest.blocks| && !Holds(hash, manifest, old(part), i)
        && (target.Some? ==> !Holds(hash, manifest, target.value, i))
        && (target.None? && basis.Some? ==> !Holds(hash, manifest, basis.value, i))
      ensures forall j :: 0 <= j < |manifest.blocks| && Holds(hash, manifest, old(part), j) ==> Holds(hash, manifest, part, j)
    {
      var existing := if target.Some? then target else basis;
      var missing: seq<nat> := [];
      for index := 0 to |manifest.blocks|
        invariant Sound()
        invariant forall i, j :: 0 <= i < j < |missing| ==> missing[i] < missing[j]
        invariant forall i :: 0 <= i < |missing| ==> missing[i] < index && Lacking(old(part), existing, missing[i])
        invariant forall j :: 0 <= j < index && j !in missing ==> Holds(hash, manifest, part, j)
        invariant forall j :: 0 <= j < |manifest.blocks| && Holds(hash, manifest, old(part), j) ==> Holds(hash, manifest, part, j)
      {
        var fetch :- Reuse(existing, index);
        if fetch {
          missing := missing + [index];
        }
      }
      r := Ok(missing);
    }

    predicate Lacking(before: Bytes, existing: Option<Bytes>, index: nat)
      requires Valid(manifest)
    {
      index < |manifest.blocks| && !Holds(hash, manifest, before, index) && !Has(hash, manifest, existing, index)
    }

    /**
     A whole transfer: find what is missing and put each block that the sender delivers. Whenever it succeeds the
     part file is the one content that the manifest describes, whatever an earlier attempt had left there.
     */
    method Fetch(basis: Option<Bytes>, deliver: nat -> Bytes, ghost content: Bytes) returns (r: Result<()>)
      requires Sound() && Injective(hash) && Wellformed(hash) && |content| <= MAX_SIZE
      requires manifest == ManifestOf(hash, content)
      modifies `part
      ensures Sound() && (r.Ok? ==> part == content)
      ensures !finished && (forall j :: 0 <= j < |manifest.blocks| ==> Fits(hash, manifest, j, deliver(j))) ==> r.Ok?
    {
      var missing :- MissingFrom(basis);
      for k := 0 to |missing|
        invariant Sound()
        invariant forall j :: 0 <= j < |manifest.blocks| && !Holds(hash, manifest, part, j) ==> j in missing[k..]
      {
        assert missing[k..] == [missing[k]] + missing[k + 1..];
        var put := Put(missing[k], deliver(missing[k]));
        if put.Err? {
          return Err(put.error);
        }
      }
      assert Complete(hash, manifest, part);
      ManifestDescribes(hash, content);
      ContentIsUnique(hash, manifest, part, content);
      r := Ok(());
    }
  }
}
