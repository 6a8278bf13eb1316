/** The copying loops of the file cache, against file objects that read and write as much
    as they like in one call. */
module FileObjects {
  import opened Basics
  import opened FileCacher

  class Source {
    const data: Bytes
    var pos: nat
    ghost var asked: nat

    constructor (data: Bytes)
      ensures this.data == data && pos == 0 && asked == 0
    {
      this.data, pos, asked := data, 0, 0;
    }

    ghost predicate Valid()
      reads this
    {
      pos <= |data|
    }

    function Rest(): Bytes
      requires Valid()
      reads this
    {
      data[pos..]
    }

    /** At least one byte and at most n, and nothing only at the end. */
    method Read(n: nat) returns (buffer: Bytes)
      requires Valid() && n > 0
      modifies this
      ensures Valid() && old(Rest()) == buffer + Rest()
      ensures |buffer| <= n && (buffer == [] <==> old(Rest()) == [])
      ensures asked == if n > old(asked) then n else old(asked)
    {
      var k: nat := 0;
      if pos < |data| {
        k :| 1 <= k <= |data| - pos && k <= n;
      }
      buffer := data[pos..pos + k];
      assert data[pos..] == data[pos..pos + k] + data[pos + k..];
      pos := pos + k;
      asked := if n > asked then n else asked;
    }
  }

  class Sink {
    var data: Bytes
    ghost var given: nat

    constructor ()
      ensures data == [] && given == 0
    {
      data, given := [], 0;
    }

    /** At least one byte of the buffer is written. */
    method Write(buffer: Bytes) returns (written: nat)
      requires buffer != []
      modifies this
      ensures 1 <= written <= |buffer| && data == old(data) + buffer[..written]
      ensures given == if |buffer| > old(given) then |buffer| else old(given)
    {
      written :| 1 <= written <= |buffer|;
      data := data + buffer[..written];
      given := if |buffer| > given then |buffer| else given;
    }
  }

  /** A file object whose writes may also report no count, and then take nothing. */
  class Pipe {
    var data: Bytes
    ghost var refused: bool

    constructor ()
      ensures data == [] && !refused
    {
      data, refused := [], false;
    }

    method Write(buffer: Bytes) returns (written: Option<nat>)
      requires buffer != []
      modifies this
      ensures written.None? ==> data == old(data) && refused
      ensures written.Some? ==>
                1 <= written.value <= |buffer| && data == old(data) + buffer[..written.value] && refused == old(refused)
    {
      var n: nat :| n <= |buffer|;
      if n == 0 {
        refused := true;
        return None;
      }
      data := data + buffer[..n];
      written := Some(n);
    }
  }

  /** What has been treated, what has been read and what is still to be read make the whole. */
  ghost predicate Parts(fed: Bytes, buffer: Bytes, rest: Bytes, all: Bytes) {
    fed + buffer + rest == all
  }

  lemma PartsStart(buffer: Bytes, rest: Bytes)
    ensures Parts([], buffer, rest, buffer + rest)
  {
  }

  lemma PartsNext(fed: Bytes, buffer: Bytes, rest: Bytes, all: Bytes, next: Bytes, left: Bytes)
    requires Parts(fed, buffer, rest, all) && rest == next + left
    ensures Parts(fed + buffer, next, left, all)
  {
    assert fed + buffer + (next + left) == fed + buffer + next + left;
  }

  lemma PartsEnd(fed: Bytes, all: Bytes)
    requires Parts(fed, [], [], all)
    ensures fed == all
  {
  }

  /** The loop that writes one buffer, however little is written at a time. */
  method WriteAll(to: Sink, buffer: Bytes)
    modifies to
    ensures to.data == old(to.data) + buffer
    ensures to.given <= if |buffer| > old(to.given) then |buffer| else old(to.given)
  {
    var left := buffer;
    while left != []
      invariant to.data + left == old(to.data) + buffer && |left| <= |buffer|
      invariant to.given <= if |buffer| > old(to.given) then |buffer| else old(to.given)
      decreases |left|
    {
      ghost var before := to.data;
      var written := to.Write(left);
      assert left == left[..written] + left[written..];
      left := left[written..];
    }
  }

  /** copyfileobj: everything that is left of the source is appended, in pieces of at most
      the buffer size. */
  method CopyFileObj(source: Source, destination: Sink, bufferSize: nat)
    requires source.Valid() && bufferSize > 0
    modifies source, destination
    ensures destination.data == old(destination.data) + old(source.Rest())
    ensures source.Valid() && source.Rest() == []
    ensures source.asked <= if bufferSize > old(source.asked) then bufferSize else old(source.asked)
    ensures destination.given <= if bufferSize > old(destination.given) then bufferSize else old(destination.given)
  {
    while true
      invariant source.Valid() && destination.data + source.Rest() == old(destination.data) + old(source.Rest())
      invariant source.asked <= if bufferSize > old(source.asked) then bufferSize else old(source.asked)
      invariant destination.given <= if bufferSize > old(destination.given) then bufferSize else old(destination.given)
      decreases |source.Rest()|
    {
      ghost var before := destination.data;
      ghost var rest := source.Rest();
      var buffer := source.Read(bufferSize);
      if buffer == [] {
        break;
      }
      WriteAll(destination, buffer);
      assert before + rest == before + buffer + source.Rest();
    }
  }

  /** Feeding a hasher piece by piece is hashing what it was fed. */
  class Digester {
    var fed: Bytes

    constructor ()
      ensures fed == []
    {
      fed := [];
    }

    method Update(b: Bytes)
      modifies this
      ensures fed == old(fed) + b
    {
      fed := fed + b;
    }
  }

  /** The inner loop of put_file_from_fobj: what is left when a write reports no count is lost. */
  method StoreBuffer(to: Pipe, buffer: Bytes) returns (ghost lost: nat)
    modifies to
    ensures old(to.refused) ==> to.refused
    ensures lost <= |buffer| && to.data == old(to.data) + buffer[..|buffer| - lost]
    ensures to.refused <==> old(to.refused) || lost > 0
  {
    var left := buffer;
    while left != []
      invariant |left| <= |buffer| && left == buffer[|buffer| - |left|..]
      invariant to.data == old(to.data) + buffer[..|buffer| - |left|] && to.refused == old(to.refused)
      decreases |left|
    {
      var written := to.Write(left);
      if written.None? {
        break;
      }
      ghost var n := |buffer| - |left|;
      assert buffer[..n] + left[..written.value] == buffer[..n + written.value];
      left := left[written.value..];
    }
    lost := |left|;
  }

  /** The first half of put_file_from_fobj: one pass both stores and hashes the source; the
      digest is that of the source in any case, and the stored file is complete exactly if no
      write failed to report a count. */
  method StoreAndHash(hash: Bytes -> Digest, source: Source, destination: Pipe) returns (digest: Digest)
    requires source.Valid() && !destination.refused
    modifies source, destination
    ensures digest == hash(old(source.Rest())) && source.Valid() && source.Rest() == []
    ensures destination.data == old(destination.data) + old(source.Rest()) <==> !destination.refused
  {
    hide Parts;
    var d := new Digester();
    ghost var missing: nat := 0;
    ghost var all := source.Rest();
    var buffer := source.Read(CHUNK_SIZE);
    PartsStart(buffer, source.Rest());
    while buffer != []
      invariant source.Valid() && fresh(d)
      invariant Parts(d.fed, buffer, source.Rest(), all)
      invariant |destination.data| + missing == |old(destination.data)| + |d.fed|
      invariant missing == 0 ==> destination.data == old(destination.data) + d.fed
      invariant destination.refused <==> missing > 0
      invariant buffer == [] ==> source.Rest() == []
      decreases |buffer| + |source.Rest()|
    {
      ghost var fed := d.fed;
      d.Update(buffer);
      ghost var lost := StoreBuffer(destination, buffer);
      missing := missing + lost;
      assert buffer[..|buffer|] == buffer;
      assert missing == 0 ==> destination.data == old(destination.data) + (fed + buffer);
      ghost var was, rest := buffer, source.Rest();
      buffer := source.Read(CHUNK_SIZE);
      PartsNext(fed, was, rest, all, buffer, source.Rest());
    }
    PartsEnd(d.fed, all);
    digest := hash(d.fed);
  }

  /** Reading a file to hash it. */
  method HashAll(hash: Bytes -> Digest, content: Bytes) returns (digest: Digest)
    ensures digest == hash(content)
  {
    hide Parts;
    var source := new Source(content);
    var d := new Digester();
    assert content[0..] == content;
    var buffer := source.Read(CHUNK_SIZE);
    PartsStart(buffer, source.Rest());
    while buffer != []
      invariant source.Valid() && fresh(source) && fresh(d)
      invariant Parts(d.fed, buffer, source.Rest(), content)
      invariant buffer == [] ==> source.Rest() == []
      decreases |buffer| + |source.Rest()|
    {
      ghost var fed, was, rest := d.fed, buffer, source.Rest();
      d.Update(buffer);
      buffer := source.Read(CHUNK_SIZE);
      PartsNext(fed, was, rest, content, buffer, source.Rest());
    }
    PartsEnd(d.fed, content);
    digest := hash(d.fed);
  }

  /** What is left when the files in `todo` have not been looked at yet. */
  ghost function Remaining(hash: Bytes -> Digest, files: map<Digest, Bytes>, delete: bool, todo: set<Digest>):
    map<Digest, Bytes>
  {
    map d | d in files && (d in todo || !delete || d == TOMBSTONE || hash(files[d]) == d) :: files[d]
  }

  lemma RemainingLess(hash: Bytes -> Digest, files: map<Digest, Bytes>, delete: bool, todo: set<Digest>, d: Digest)
    requires d in todo && d in files
    ensures Remaining(hash, files, delete, todo - {d}) ==
            if delete && d != TOMBSTONE && hash(files[d]) != d then Remaining(hash, files, delete, todo) - {d}
            else Remaining(hash, files, delete, todo)
  {
  }

  lemma RemainingEnds(hash: Bytes -> Digest, files: map<Digest, Bytes>, delete: bool)
    ensures Remaining(hash, files, delete, files.Keys) == files
    ensures Remaining(hash, files, delete, {})
            == map d | d in files && (!delete || d == TOMBSTONE || hash(files[d]) == d) :: files[d]
  {
  }

  /** check_backend_integrity: true exactly if every file has the digest it is stored under;
      on request those that do not are deleted, except under the tombstone, which a delete
      ignores. */
  method CheckBackendIntegrity(hash: Bytes -> Digest, files: map<Digest, Bytes>, delete: bool)
    returns (clean: bool, left: map<Digest, Bytes>)
    ensures clean <==> forall d :: d in files ==> hash(files[d]) == d
    ensures left == map d | d in files && (!delete || d == TOMBSTONE || hash(files[d]) == d) :: files[d]
  {
    hide Remaining;
    clean, left := true, files;
    var todo := files.Keys;
    RemainingEnds(hash, files, delete);
    while todo != {}
      invariant todo <= files.Keys
      invariant clean <==> forall d :: d in files && d !in todo ==> hash(files[d]) == d
      invariant left == Remaining(hash, files, delete, todo)
      decreases |todo|
    {
      var d :| d in todo;
      RemainingLess(hash, files, delete, todo, d);
      todo := todo - {d};
      var computed := HashAll(hash, files[d]);
      if d != computed {
        if delete && d != TOMBSTONE {
          left := left - {d};
        }
        clean := false;
      }
    }
  }
}
