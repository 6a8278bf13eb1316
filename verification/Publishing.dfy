/** The broadcast to many subscribers: a bounded cache of messages, from which a client that
    comes back is given what it missed. */
module Publishing {
  import opened Basics
  import opened EventStream
  import Numerals

  /** A message that was put, with its key: microseconds since the epoch. */
  datatype Put = Put(key: nat, event: Option<string>, data: Option<string>)

  function IdOf(key: nat): string { Numerals.Show(key, 16) }

  function AsChunk(p: Put): Chunk { Message(IdOf(p.key), p.event, p.data) }

  function Entry(p: Put): (nat, string) { (p.key, ChunkText(AsChunk(p))) }

  const REINIT: string := "event:reinit\n\n"

  function Entries(puts: seq<Put>): (r: seq<(nat, string)>)
    ensures |r| == |puts| && forall i :: 0 <= i < |r| ==> r[i] == Entry(puts[i])
  {
    seq(|puts|, i requires 0 <= i < |puts| => Entry(puts[i]))
  }

  function Texts(puts: seq<Put>): (r: seq<string>)
    ensures |r| == |puts| && forall i :: 0 <= i < |r| ==> r[i] == ChunkText(AsChunk(puts[i]))
  {
    seq(|puts|, i requires 0 <= i < |puts| => ChunkText(AsChunk(puts[i])))
  }

  /** The latest n. */
  function Latest<T>(s: seq<T>, n: nat): seq<T> {
    if |s| <= n then s else s[|s| - n..]
  }

  /** The number in an id; the pattern that is matched lets one line feed pass at the end. */
  function ParseId(last: Option<string>): Option<nat> {
    if last.None? then None
    else
      var s := last.value;
      var digits := if s != "" && s[|s| - 1] == '\n' then s[..|s| - 1] else s;
      if digits != "" && Numerals.AreDigits(digits, 16) then Some(Numerals.Read(digits, 16)) else None
  }

  /** The texts of the cache with a key greater than k. */
  function Newer(cache: seq<(nat, string)>, k: nat): seq<string> {
    if cache == [] then []
    else Newer(cache[..|cache| - 1], k) + if cache[|cache| - 1].0 > k then [cache[|cache| - 1].1] else []
  }

  /** What a new subscriber finds in its queue. */
  function Replay(cache: seq<(nat, string)>, last: Option<string>): seq<string> {
    match ParseId(last)
    case None => []
    case Some(k) => if cache != [] && k >= cache[0].0 then Newer(cache, k) else [REINIT]
  }

  class Queue {
    var items: seq<string>
    ghost var taken: seq<string>
    ghost const start: seq<string>
    ghost const begun: nat

    constructor (items: seq<string>, ghost begun: nat)
      ensures this.items == items && start == items && taken == [] && this.begun == begun
    {
      this.items, start, taken, this.begun := items, items, [], begun;
    }
  }

  class Publisher {
    const size: nat
    var cache: seq<(nat, string)>
    var queues: set<Queue>
    ghost var history: seq<Put>

    constructor (size: nat)
      ensures Valid() && this.size == size && history == [] && queues == {}
    {
      this.size, cache, queues, history := size, [], {}, [];
    }

    /** The cache holds the latest messages; every subscriber has taken or will take its
        first messages and then all that were put since it came. */
    ghost predicate Valid()
      reads this, queues
    {
      && cache == Latest(Entries(history), size)
      && forall q :: q in queues ==> Served(q, history)
    }

    /** put: raises, and changes nothing, if the name of the event is not legal. */
    method PutEvent(key: nat, event: Option<string>, data: Option<string>) returns (ok: bool)
      requires Valid()
      modifies this`cache, this`history, queues
      ensures Valid() && (ok <==> LegalName(event))
      ensures ok ==> history == old(history) + [Put(key, event, data)]
      ensures forall q :: q in queues ==>
        q.taken == old(q.taken)
        && q.items == if ok then old(q.items) + [ChunkText(AsChunk(Put(key, event, data)))] else old(q.items)
      ensures !ok ==> history == old(history) && cache == old(cache)
    {
      hide ChunkText, Unlines, EventLines, LegalName, Balance;
      var text := FormatEvent(IdOf(key), event, data);
      if text.None? {
        return false;
      }
      assert text.value == ChunkText(AsChunk(Put(key, event, data))) by { TextOfEvent(IdOf(key), event, data); }
      ghost var p := Put(key, event, data);
      CacheMore(history, p, size);
      cache := Latest(cache + [(key, text.value)], size);
      Send(text.value);
      forall q | q in queues
        ensures q.begun <= |history| && Balance(q.taken, q.items, q.start, q.begun, history + [p])
      {
        assert old(Served(q, history));
        ServedMore(old(q.taken), old(q.items), q.start, history, q.begun, p);
      }
      history := history + [p];
      ok := true;
    }

    method Send(msg: string)
      modifies queues
      ensures forall q :: q in queues ==> q.taken == old(q.taken) && q.items == old(q.items) + [msg]
    {
      var todo := queues;
      while todo != {}
        invariant todo <= queues
        invariant forall q :: q in queues ==>
                    q.taken == old(q.taken) && q.items == if q in todo then old(q.items) else old(q.items) + [msg]
        decreases |todo|
      {
        var q :| q in todo;
        q.items := q.items + [msg];
        todo := todo - {q};
      }
    }

    method Missed(last: Option<string>) returns (items: seq<string>)
      ensures items == Replay(cache, last)
    {
      hide Newer, ParseId;
      items := [];
      var k := ParseId(last);
      if k.Some? {
        if |cache| > 0 && k.value >= cache[0].0 {
          NewerNothing(k.value);
          for i := 0 to |cache|
            invariant items == Newer(cache[..i], k.value)
          {
            assert cache[..i + 1] == cache[..i] + [cache[i]];
            NewerMore(cache[..i], cache[i], k.value);
            if cache[i].0 > k.value {
              items := items + [cache[i].1];
            }
          }
          assert cache[..|cache|] == cache;
        } else {
          items := [REINIT];
        }
      }
    }

    /** get_subscriber: what was missed, or the marker to start over. */
    method GetSubscriber(last: Option<string>) returns (q: Queue)
      requires Valid()
      modifies this`queues
      ensures Valid() && fresh(q) && queues == old(queues) + {q}
      ensures q.items == q.start == Replay(cache, last) && q.taken == [] && q.begun == |history|
    {
      hide Replay;
      var items := Missed(last);
      q := new Queue(items, |history|);
      assert Served(q, history);
      queues := queues + {q};
    }

    /** Subscriber.get: everything that is in the queue now. */
    method Get(q: Queue) returns (items: seq<string>)
      requires Valid() && q in queues
      modifies q
      ensures Valid() && items == old(q.items) && q.items == [] && q.taken == old(q.taken) + items
    {
      hide Texts;
      items := q.items;
      q.items := [];
      q.taken := q.taken + items;
      assert q.taken + q.items == old(q.taken) + old(q.items);
    }
  }

  ghost predicate Served(q: Queue, history: seq<Put>)
    reads q
  {
    q.begun <= |history| && Balance(q.taken, q.items, q.start, q.begun, history)
  }

  ghost predicate Balance(taken: seq<string>, items: seq<string>, start: seq<string>, begun: nat, history: seq<Put>)
    requires begun <= |history|
  {
    taken + items == start + Texts(history[begun..])
  }

  lemma ServedMore(taken: seq<string>, items: seq<string>, start: seq<string>, history: seq<Put>, begun: nat, p: Put)
    requires begun <= |history| && Balance(taken, items, start, begun, history)
    ensures Balance(taken, items + [ChunkText(AsChunk(p))], start, begun, history + [p])
  {
    hide ChunkText;
    var more := history + [p];
    assert more[begun..] == history[begun..] + [p];
    assert Texts(more[begun..]) == Texts(history[begun..]) + [ChunkText(AsChunk(p))];
    assert taken + (items + [ChunkText(AsChunk(p))]) == (taken + items) + [ChunkText(AsChunk(p))];
  }

  lemma TextOfEvent(id: string, event: Option<string>, data: Option<string>)
    ensures ChunkText(Message(id, event, data)) == Unlines(EventLines(id, event, data) + [""])
  {
  }

  lemma NewerNothing(k: nat)
    ensures Newer([], k) == []
  {
  }

  lemma NewerMore(cache: seq<(nat, string)>, e: (nat, string), k: nat)
    ensures Newer(cache + [e], k) == Newer(cache, k) + if e.0 > k then [e.1] else []
  {
    assert (cache + [e])[..|cache|] == cache;
  }

  lemma CacheMore(history: seq<Put>, p: Put, size: nat)
    ensures Latest(Latest(Entries(history), size) + [Entry(p)], size) == Latest(Entries(history + [p]), size)
  {
    hide Entry, Entries, Latest;
    EntriesMore(history, p);
    LatestMore(Entries(history), Entry(p), size);
  }

  lemma EntriesMore(history: seq<Put>, p: Put)
    ensures Entries(history + [p]) == Entries(history) + [Entry(p)]
  {
    hide Entry;
  }

  lemma LatestMore<T>(s: seq<T>, x: T, n: nat)
    ensures Latest(Latest(s, n) + [x], n) == Latest(s + [x], n)
  {
  }

  // ------------------------------------------------------------ no gap

  function After(puts: seq<Put>, k: nat): seq<Put> {
    if puts == [] then []
    else After(puts[..|puts| - 1], k) + if puts[|puts| - 1].key > k then [puts[|puts| - 1]] else []
  }

  ghost predicate NonDecreasing(puts: seq<Put>) {
    forall i, j :: 0 <= i < j < |puts| ==> puts[i].key <= puts[j].key
  }

  ghost predicate Increasing(puts: seq<Put>) {
    forall i, j :: 0 <= i < j < |puts| ==> puts[i].key < puts[j].key
  }

  lemma {:induction false} NewerIsAfter(puts: seq<Put>, k: nat)
    ensures Newer(Entries(puts), k) == Texts(After(puts, k))
  {
    if puts != [] {
      var prior := puts[..|puts| - 1];
      NewerIsAfter(prior, k);
      assert Entries(puts)[..|puts| - 1] == Entries(prior);
      if puts[|puts| - 1].key > k {
        assert Texts(After(puts, k)) == Texts(After(prior, k)) + [Entry(puts[|puts| - 1]).1];
      } else {
        assert After(puts, k) == After(prior, k);
      }
    }
  }

  lemma {:induction false} AfterMore(a: seq<Put>, b: seq<Put>, k: nat)
    ensures After(a + b, k) == After(a, k) + After(b, k)
  {
    if b == [] {
      assert a + b == a;
    } else {
      AfterMore(a, b[..|b| - 1], k);
      assert (a + b)[..|a + b| - 1] == a + b[..|b| - 1];
    }
  }

  lemma {:induction false} AfterNone(puts: seq<Put>, k: nat)
    requires forall i :: 0 <= i < |puts| ==> puts[i].key <= k
    ensures After(puts, k) == []
  {
    if puts != [] {
      AfterNone(puts[..|puts| - 1], k);
    }
  }

  lemma {:induction false} AfterAll(puts: seq<Put>, k: nat)
    requires forall i :: 0 <= i < |puts| ==> puts[i].key > k
    ensures After(puts, k) == puts
  {
    if puts != [] {
      AfterAll(puts[..|puts| - 1], k);
      assert puts == puts[..|puts| - 1] + [puts[|puts| - 1]];
    }
  }

  /** The cache can tell everything that came after the key. */
  ghost predicate Covers(history: seq<Put>, size: nat, k: nat) {
    var c := Latest(history, size);
    c != [] && k >= c[0].key
  }

  /** A new subscriber with a well-formed id finds either just the marker, or every message
      ever put with a greater key, in order, however many of them the cache has dropped. */
  lemma Resubscription(history: seq<Put>, size: nat, last: Option<string>)
    requires NonDecreasing(history) && ParseId(last).Some?
    ensures Replay(Latest(Entries(history), size), last) ==
            if Covers(history, size, ParseId(last).value) then Texts(After(history, ParseId(last).value)) else [REINIT]
  {
    hide ParseId, Entry, After, Newer;
    var c := Latest(history, size);
    assert Latest(Entries(history), size) == Entries(c);
    if c != [] {
      EntryKey(c[0]);
      NewerIsAfter(c, ParseId(last).value);
      AfterCovered(history, size, ParseId(last).value);
    }
  }

  lemma EntryKey(p: Put)
    ensures Entry(p).0 == p.key
  {
  }

  lemma AfterCovered(history: seq<Put>, size: nat, k: nat)
    requires NonDecreasing(history)
    ensures Covers(history, size, k) ==> After(history, k) == After(Latest(history, size), k)
  {
    if Covers(history, size, k) {
      var c := Latest(history, size);
      var dropped := history[..|history| - |c|];
      assert history == dropped + c;
      assert c[0] == history[|dropped|];
      AfterMore(dropped, c, k);
      AfterNone(dropped, k);
      assert [] + After(c, k) == After(c, k);
    }
  }

  lemma KeysAround(history: seq<Put>, p: nat)
    requires Increasing(history) && 1 <= p <= |history|
    ensures forall i :: 0 <= i < p ==> history[..p][i].key <= history[p - 1].key
    ensures forall i :: 0 <= i < |history| - p ==> history[p..][i].key > history[p - 1].key
  {
  }

  lemma AfterIsRest(history: seq<Put>, p: nat)
    requires Increasing(history) && 1 <= p <= |history|
    ensures After(history, history[p - 1].key) == history[p..]
  {
    hide After, Increasing;
    var k := history[p - 1].key;
    var seen, rest := history[..p], history[p..];
    assert history == seen + rest;
    AfterMore(seen, rest, k);
    KeysAround(history, p);
    AfterNone(seen, k);
    AfterAll(rest, k);
    assert [] + rest == rest;
  }

  /** The id that the client sends back is the key of the message it got last. */
  lemma IdComesBack(key: nat)
    ensures IdOf(key) != "" && ParseId(Some(IdOf(key))) == Some(key)
  {
    var s := IdOf(key);
    assert Numerals.AreDigits(s, 16);
    assert Numerals.DigitValue(s[|s| - 1]) < 16;
    Numerals.ReadShow(key, 16);
  }

  // ------------------------------------------------- clients that come and go

  /** One connection: it is made when n messages had been put and ends when m had; the server
      writes the chunks, of which the client gets the first `cut` characters. */
  datatype Session = Session(n: nat, m: nat, chunks: seq<Chunk>, cut: nat)

  /** The chunks that are not comments. */
  function Messages(chunks: seq<Chunk>): seq<Chunk> {
    if chunks == [] then []
    else (if chunks[0].Message? then [chunks[0]] else []) + Messages(chunks[1..])
  }

  function AsChunks(puts: seq<Put>): (r: seq<Chunk>)
    ensures |r| == |puts| && forall i :: 0 <= i < |r| ==> r[i] == AsChunk(puts[i])
  {
    seq(|puts|, i requires 0 <= i < |puts| => AsChunk(puts[i]))
  }

  function AsSent(p: Put): Delivered {
    Delivered(IdOf(p.key), NameOf(p.event), Unify(if p.data.Some? then p.data.value else ""))
  }

  function AllSent(puts: seq<Put>): (r: seq<Delivered>)
    ensures |r| == |puts| && forall i :: 0 <= i < |r| ==> r[i] == AsSent(puts[i])
  {
    seq(|puts|, i requires 0 <= i < |puts| => AsSent(puts[i]))
  }

  ghost predicate AllFaithful(history: seq<Put>) {
    forall i :: 0 <= i < |history| ==> LegalName(history[i].event) && Faithful(history[i].event, history[i].data)
  }

  /** The client connects with the id `last`, or with none if that is empty; the cache covers
      what it missed; and the server writes what is in its queue, among comments. */
  ghost predicate Follows(history: seq<Put>, size: nat, last: string, s: Session) {
    && s.n <= s.m <= |history| && s.cut <= |Text(s.chunks)|
    && if last == "" then Messages(s.chunks) == AsChunks(history[s.n..s.m])
       else
         var k := ParseId(Some(last));
         k.Some? && Covers(history[..s.n], size, k.value)
         && Messages(s.chunks) == AsChunks(After(history[..s.n], k.value) + history[s.n..s.m])
  }

  /** What the client has seen so far ends just before message p. */
  ghost predicate SeenUpTo(history: seq<Put>, last: string, p: nat) {
    1 <= p <= |history| && last == IdOf(history[p - 1].key)
  }

  lemma FirstOfAll(puts: seq<Put>)
    requires puts != []
    ensures AsChunks(puts) != [] && AsChunks(puts)[0] == AsChunk(puts[0]) && AsChunks(puts)[1..] == AsChunks(puts[1..])
    ensures AllSent(puts) == [AsSent(puts[0])] + AllSent(puts[1..])
    ensures AllFaithful(puts) ==>
              LegalName(puts[0].event) && Faithful(puts[0].event, puts[0].data) && AllFaithful(puts[1..])
  {
    hide AsChunk, AsSent, Faithful, LegalName;
  }

  lemma FirstMessage(chunks: seq<Chunk>)
    requires chunks != []
    ensures chunks[0].Message? ==> Messages(chunks) != [] && Messages(chunks)[0] == chunks[0]
    ensures (if chunks[0].Message? then Messages(chunks)[1..] else Messages(chunks)) == Messages(chunks[1..])
  {
  }

  lemma {:induction false} SentIsMessages(chunks: seq<Chunk>, puts: seq<Put>)
    requires Messages(chunks) == AsChunks(puts) && AllFaithful(puts)
    ensures AllGood(chunks) && Sent(chunks) == AllSent(puts)
  {
    hide AsChunk, AsChunks, AsSent, AllSent, Good, Faithful, LegalName, AllFaithful, Messages;
    if chunks == [] {
      NoMessages(puts);
    } else {
      FirstMessage(chunks);
      if chunks[0].Message? {
        SomeMessage(puts);
        FirstOfAll(puts);
        SentIsMessages(chunks[1..], puts[1..]);
        PutIsGood(puts[0]);
      } else {
        SentIsMessages(chunks[1..], puts);
        assert [] + Sent(chunks[1..]) == Sent(chunks[1..]);
        CommentIsGood(chunks[0]);
      }
    }
  }

  lemma NoMessages(puts: seq<Put>)
    requires Messages([]) == AsChunks(puts)
    ensures puts == [] && AllSent(puts) == []
  {
  }

  lemma SomeMessage(puts: seq<Put>)
    requires AsChunks(puts) != []
    ensures puts != []
  {
  }

  lemma CommentIsGood(c: Chunk)
    requires c.Comment?
    ensures Good(c)
  {
  }

  lemma PutIsGood(p: Put)
    requires LegalName(p.event) && Faithful(p.event, p.data)
    ensures Good(AsChunk(p)) && AsChunk(p).Message? && AsChunk(p).data.Some?
    ensures Delivered(AsChunk(p).id, NameOf(AsChunk(p).event), Unify(AsChunk(p).data.value)) == AsSent(p)
  {
    HexIsClean(p.key);
  }

  /** From any beginning of the text a client gets the first messages. */
  lemma ChunksGive(last: string, chunks: seq<Chunk>, puts: seq<Put>, cut: nat) returns (k: nat)
    requires Messages(chunks) == AsChunks(puts) && AllFaithful(puts) && cut <= |Text(chunks)|
    ensures k <= |puts| && Interpret(last, Text(chunks)[..cut]) == AllSent(puts[..k])
    ensures LastId(last, Text(chunks)[..cut]) == if k == 0 then last else IdOf(puts[k - 1].key)
    ensures cut == |Text(chunks)| ==> k == |puts|
  {
    hide Text, Interpret, LastId, Unify, AllFaithful, Messages, NameOf;
    SentIsMessages(chunks, puts);
    k := StreamRoundTrip(last, chunks, cut);
    assert AllSent(puts)[..k] == AllSent(puts[..k]);
  }

  lemma SliceJoin<T>(s: seq<T>, p: nat, n: nat, m: nat)
    requires p <= n <= m <= |s|
    ensures s[..n][p..] + s[n..m] == s[p..m]
  {
  }

  lemma SliceStart<T>(s: seq<T>, p: nat, m: nat, k: nat)
    requires p <= m <= |s| && k <= m - p
    ensures s[p..m][..k] == s[p..p + k] && (k > 0 ==> s[p..m][k - 1] == s[p + k - 1])
  {
  }

  lemma FaithfulSlice(history: seq<Put>, p: nat, m: nat)
    requires AllFaithful(history) && p <= m <= |history|
    ensures AllFaithful(history[p..m])
  {
    hide Faithful, LegalName;
  }

  lemma IncreasingStart(history: seq<Put>, n: nat)
    requires Increasing(history) && n <= |history|
    ensures Increasing(history[..n])
  {
  }

  /** One connection of a client that has seen an event: it gets the messages that follow. */
  lemma OneSession(history: seq<Put>, size: nat, last: string, p: nat, s: Session) returns (k: nat)
    requires Increasing(history) && AllFaithful(history) && SeenUpTo(history, last, p)
    requires Follows(history, size, last, s) && p <= s.n
    ensures p + k <= s.m && Interpret(last, Text(s.chunks)[..s.cut]) == AllSent(history[p..p + k])
    ensures SeenUpTo(history, LastId(last, Text(s.chunks)[..s.cut]), p + k)
    ensures s.cut == |Text(s.chunks)| ==> p + k == s.m
  {
    hide Text, Interpret, LastId, ParseId, Covers, Messages, IdOf, AllSent, After, AsChunks, Increasing, AllFaithful;
    IdComesBack(history[p - 1].key);
    IncreasingStart(history, s.n);
    AfterIsRest(history[..s.n], p);
    var puts := history[p..s.m];
    SliceJoin(history, p, s.n, s.m);
    FaithfulSlice(history, p, s.m);
    k := ChunksGive(last, s.chunks, puts, s.cut);
    SliceStart(history, p, s.m, k);
  }

  /** The first connection, without an id: it gets the messages put from then on. */
  lemma FirstSession(history: seq<Put>, size: nat, s: Session) returns (k: nat)
    requires Increasing(history) && AllFaithful(history) && Follows(history, size, "", s)
    ensures s.n + k <= s.m && Interpret("", Text(s.chunks)[..s.cut]) == AllSent(history[s.n..s.n + k])
    ensures var last := LastId("", Text(s.chunks)[..s.cut]);
            if k == 0 then last == "" else SeenUpTo(history, last, s.n + k)
    ensures s.cut == |Text(s.chunks)| ==> s.n + k == s.m
  {
    hide Text, Interpret, LastId, ParseId, Covers, Messages, IdOf, AllSent, AsChunks, Increasing, AllFaithful;
    var puts := history[s.n..s.m];
    FaithfulSlice(history, s.n, s.m);
    k := ChunksGive("", s.chunks, puts, s.cut);
    SliceStart(history, s.n, s.m, k);
  }

  lemma NothingSent(history: seq<Put>, p: nat)
    requires p <= |history|
    ensures AllSent(history[p..p + 0]) == []
  {
  }

  lemma AllSentSplit(history: seq<Put>, p: nat, a: nat, b: nat)
    requires p + a + b <= |history|
    ensures AllSent(history[p..p + a + b]) == AllSent(history[p..p + a]) + AllSent(history[p + a..p + a + b])
  {
    hide AsSent;
  }

  // ------------------------------------------------ from the queue to the client

  /** What the server writes at a time: a comment, or a text it has taken from the queue. */
  datatype Piece = Ping | Item(text: string)

  function Written(pieces: seq<Piece>): string {
    if pieces == [] then ""
    else (match pieces[0] case Ping => ":\n" case Item(text) => text) + Written(pieces[1..])
  }

  function Items(pieces: seq<Piece>): seq<string> {
    if pieces == [] then []
    else (match pieces[0] case Ping => [] case Item(text) => [text]) + Items(pieces[1..])
  }

  /** The pieces as chunks, then the messages that have not been written yet. */
  function Weave(pieces: seq<Piece>, puts: seq<Put>): seq<Chunk>
    requires |Items(pieces)| <= |puts|
  {
    if pieces == [] then AsChunks(puts)
    else if pieces[0].Ping? then [Comment] + Weave(pieces[1..], puts)
    else [AsChunk(puts[0])] + Weave(pieces[1..], puts[1..])
  }

  lemma {:induction false} MessagesOf(puts: seq<Put>)
    ensures Messages(AsChunks(puts)) == AsChunks(puts)
  {
    if puts != [] {
      MessagesOf(puts[1..]);
      assert AsChunks(puts)[1..] == AsChunks(puts[1..]);
    }
  }

  lemma {:induction false} WeaveText(pieces: seq<Piece>, puts: seq<Put>)
    requires Items(pieces) <= Texts(puts)
    ensures Messages(Weave(pieces, puts)) == AsChunks(puts) && Written(pieces) <= Text(Weave(pieces, puts))
    ensures Items(pieces) == Texts(puts) ==> Written(pieces) == Text(Weave(pieces, puts))
  {
    hide AsChunk, Written, Text, Messages;
    if pieces == [] {
      MessagesOf(puts);
      NothingToWrite();
      assert Written(pieces) == "" by { NothingWritten(); }
    } else if pieces[0].Ping? {
      WeaveText(pieces[1..], puts);
      PingText();
      OneWritten(pieces, Comment, Weave(pieces[1..], puts));
      assert [] + AsChunks(puts) == AsChunks(puts);
    } else {
      assert Items(pieces)[0] == Texts(puts)[0] && Items(pieces)[1..] == Items(pieces[1..]);
      assert Texts(puts)[1..] == Texts(puts[1..]);
      MessageText(puts[0]);
      WeaveText(pieces[1..], puts[1..]);
      OneWritten(pieces, AsChunk(puts[0]), Weave(pieces[1..], puts[1..]));
      assert AsChunks(puts) == [AsChunk(puts[0])] + AsChunks(puts[1..]);
    }
  }

  lemma NothingToWrite()
    ensures Text([]) == ""
  {
  }

  lemma NothingWritten()
    ensures Written([]) == ""
  {
  }

  lemma OneWritten(pieces: seq<Piece>, c: Chunk, rest: seq<Chunk>)
    requires pieces != [] && ChunkText(c) == if pieces[0].Ping? then ":\n" else pieces[0].text
    requires Written(pieces[1..]) <= Text(rest)
    ensures Written(pieces) <= Text([c] + rest)
    ensures Written(pieces[1..]) == Text(rest) ==> Written(pieces) == Text([c] + rest)
    ensures Messages([c] + rest) == (if c.Message? then [c] else []) + Messages(rest)
  {
    hide ChunkText;
    assert ([c] + rest)[1..] == rest;
  }

  lemma MessageText(p: Put)
    ensures AsChunk(p).Message? && Entry(p).1 == ChunkText(AsChunk(p))
  {
  }

  lemma PingText()
    ensures ChunkText(Comment) == ":\n"
  {
    assert [":"][1..] == [];
  }

  /** One connection: the queue that get_subscriber made when `begun` messages had been put,
      as it is when m have been put. The server has written what it has taken from the queue,
      among comments, and the client has got the first `cut` characters of that. */
  datatype Connection =
    Connection(begun: nat, start: seq<string>, pieces: seq<Piece>, items: seq<string>, m: nat, cut: nat)

  /** The id that a client sends with its request. */
  function Header(last: string): Option<string> {
    if last == "" then None else Some(last)
  }

  /** What the publisher keeps for such a queue, when it did not start with the marker. */
  ghost predicate Connected(history: seq<Put>, size: nat, last: string, c: Connection) {
    && c.begun <= c.m <= |history| && c.cut <= |Written(c.pieces)|
    && c.start == Replay(Latest(Entries(history[..c.begun]), size), Header(last)) && c.start != [REINIT]
    && Balance(Items(c.pieces), c.items, c.start, c.begun, history[..c.m])
  }

  /** Every queue of the publisher is such a connection. */
  lemma QueueConnects(p: Publisher, q: Queue, last: string, pieces: seq<Piece>, cut: nat)
    requires p.Valid() && q in p.queues && q.begun <= |p.history|
    requires q.start == Replay(Latest(Entries(p.history[..q.begun]), p.size), Header(last)) && q.start != [REINIT]
    requires Items(pieces) == q.taken && cut <= |Written(pieces)|
    ensures Connected(p.history, p.size, last, Connection(q.begun, q.start, pieces, q.items, |p.history|, cut))
  {
    assert p.history[..|p.history|] == p.history;
    assert Served(q, p.history);
  }

  lemma TextsMore(a: seq<Put>, b: seq<Put>)
    ensures Texts(a) + Texts(b) == Texts(a + b)
  {
    hide ChunkText, AsChunk;
  }

  /** What such a connection owes the client. */
  function Owed(history: seq<Put>, last: string, c: Connection): seq<Put>
    requires c.begun <= c.m <= |history| && (last != "" ==> ParseId(Some(last)).Some?)
  {
    (if last == "" then [] else After(history[..c.begun], ParseId(Some(last)).value)) + history[c.begun..c.m]
  }

  lemma QueueHolds(history: seq<Put>, size: nat, last: string, c: Connection)
    requires NonDecreasing(history) && Connected(history, size, last, c)
    requires last == "" || ParseId(Some(last)).Some?
    ensures last != "" ==> Covers(history[..c.begun], size, ParseId(Some(last)).value)
    ensures Items(c.pieces) + c.items == Texts(Owed(history, last, c))
  {
    hide ParseId, Covers, After, Texts, Entries, Latest, Items, Written;
    assert history[..c.m][c.begun..] == history[c.begun..c.m];
    if last == "" {
      NoId(Latest(Entries(history[..c.begun]), size));
      assert [] + history[c.begun..c.m] == history[c.begun..c.m];
    } else {
      Resubscription(history[..c.begun], size, Some(last));
      TextsMore(After(history[..c.begun], ParseId(Some(last)).value), history[c.begun..c.m]);
    }
  }

  lemma NoId(cache: seq<(nat, string)>)
    ensures Replay(cache, None) == []
  {
  }

  /** The queue has been emptied, and the client has got all that was written. */
  predicate ReadOut(c: Connection) {
    c.items == [] && c.cut == |Written(c.pieces)|
  }

  /** What a client gets over a connection, among comments, is a beginning of the text of the
      messages it is owed, and the whole of it when the connection is read out. */
  lemma QueueText(history: seq<Put>, size: nat, last: string, c: Connection) returns (s: Session)
    requires NonDecreasing(history) && Connected(history, size, last, c)
    requires last == "" || ParseId(Some(last)).Some?
    ensures Follows(history, size, last, s) && s.n == c.begun && s.m == c.m
    ensures Text(s.chunks)[..s.cut] == Written(c.pieces)[..c.cut]
    ensures ReadOut(c) ==> s.cut == |Text(s.chunks)|
  {
    hide ParseId, Covers, After, Text, Texts, Items, Replay, Weave, Messages, Balance;
    QueueHolds(history, size, last, c);
    var puts := Owed(history, last, c);
    assert c.items == [] ==> Items(c.pieces) + c.items == Items(c.pieces);
    WeaveText(c.pieces, puts);
    s := Session(c.begun, c.m, Weave(c.pieces, puts), c.cut);
    assert [] + history[c.begun..c.m] == history[c.begun..c.m];
  }

  /** Everything the client delivers over its connections. */
  function Heard(last: string, cs: seq<Connection>): seq<Delivered>
    requires forall i :: 0 <= i < |cs| ==> cs[i].cut <= |Written(cs[i].pieces)|
    decreases |cs|
  {
    if cs == [] then []
    else
      var text := Written(cs[0].pieces)[..cs[0].cut];
      Interpret(last, text) + Heard(LastId(last, text), cs[1..])
  }

  lemma LastOfRest(cs: seq<Connection>)
    requires cs != []
    ensures if |cs| == 1 then cs[1..] == []
            else cs[1..] != [] && cs[1..][|cs[1..]| - 1] == cs[|cs| - 1] && cs[1..][0] == cs[1]
  {
  }

  lemma HeardFirst(last: string, cs: seq<Connection>)
    requires cs != [] && forall i :: 0 <= i < |cs| ==> cs[i].cut <= |Written(cs[i].pieces)|
    ensures forall i :: 0 <= i < |cs[1..]| ==> cs[1..][i].cut <= |Written(cs[1..][i].pieces)|
    ensures var text := Written(cs[0].pieces)[..cs[0].cut];
      Heard(last, cs) == Interpret(last, text) + Heard(LastId(last, text), cs[1..])
  {
    hide Written, Interpret, LastId;
  }

  lemma HeardNothing(last: string)
    ensures Heard(last, []) == []
  {
  }

  /** Every connection is made after the one before it has ended, with the id that the client
      got last, and none is told to start over. */
  ghost predicate AllConnected(history: seq<Put>, size: nat, last: string, cs: seq<Connection>)
    decreases |cs|
  {
    cs != [] ==>
    && Connected(history, size, last, cs[0])
    && AllConnected(history, size, LastId(last, Written(cs[0].pieces)[..cs[0].cut]), cs[1..])
    && (|cs| > 1 ==> cs[0].m <= cs[1].begun)
  }

  lemma {:induction false} AllConnectedCut(history: seq<Put>, size: nat, last: string, cs: seq<Connection>)
    requires AllConnected(history, size, last, cs)
    ensures forall i :: 0 <= i < |cs| ==> cs[i].cut <= |Written(cs[i].pieces)|
    decreases |cs|
  {
    hide Written, LastId;
    if cs != [] {
      AllConnectedCut(history, size, LastId(last, Written(cs[0].pieces)[..cs[0].cut]), cs[1..]);
      assert forall i :: 1 <= i < |cs| ==> cs[i] == cs[1..][i - 1];
    }
  }

  /** The first connection and those after it. */
  lemma FirstConnected(history: seq<Put>, size: nat, last: string, cs: seq<Connection>)
    requires AllConnected(history, size, last, cs) && cs != []
    ensures var c := cs[0];
      && Connected(history, size, last, c) && c.begun <= c.m <= |history| && c.cut <= |Written(c.pieces)|
      && AllConnected(history, size, LastId(last, Written(c.pieces)[..c.cut]), cs[1..])
      && (|cs| > 1 ==> c.m <= cs[1].begun)
  {
  }

  lemma IncreasingIsNonDecreasing(history: seq<Put>)
    requires Increasing(history)
    ensures NonDecreasing(history)
  {
  }

  /** One connection of a client that has seen message p - 1. */
  lemma OneConnection(history: seq<Put>, size: nat, last: string, p: nat, c: Connection) returns (k: nat)
    requires Increasing(history) && AllFaithful(history) && SeenUpTo(history, last, p)
    requires Connected(history, size, last, c) && p <= c.begun && c.cut <= |Written(c.pieces)|
    ensures var text := Written(c.pieces)[..c.cut];
      && p + k <= c.m <= |history| && Interpret(last, text) == AllSent(history[p..p + k])
      && SeenUpTo(history, LastId(last, text), p + k)
    ensures ReadOut(c) ==> p + k == c.m
  {
    hide Text, Interpret, LastId, Follows, Increasing, AllFaithful, ParseId, Written, IdOf, AllSent, ReadOut, Balance,
        Replay, Covers;
    IdComesBack(history[p - 1].key);
    IncreasingIsNonDecreasing(history);
    var s := QueueText(history, size, last, c);
    k := OneSession(history, size, last, p, s);
  }

  /** One connection of a client that has not seen any message yet. */
  lemma FirstConnection(history: seq<Put>, size: nat, c: Connection) returns (k: nat)
    requires Increasing(history) && AllFaithful(history)
    requires Connected(history, size, "", c) && c.cut <= |Written(c.pieces)|
    ensures var text := Written(c.pieces)[..c.cut];
      && c.begun + k <= c.m <= |history| && Interpret("", text) == AllSent(history[c.begun..c.begun + k])
      && (if k == 0 then LastId("", text) == "" else SeenUpTo(history, LastId("", text), c.begun + k))
    ensures ReadOut(c) ==> c.begun + k == c.m
  {
    hide Text, Interpret, LastId, Follows, Increasing, AllFaithful, ParseId, Written, IdOf, AllSent, ReadOut, Balance,
        Replay, Covers;
    IncreasingIsNonDecreasing(history);
    var s := QueueText(history, size, "", c);
    k := FirstSession(history, size, s);
  }

  /** A client that drops anywhere in the text and comes back any number of times, and is never
      told to start over, gets the messages exactly once and in order, and every message put so
      far when its last connection is read out. */
  lemma {:induction false} NothingTwiceNothingMissed(history: seq<Put>, size: nat, last: string, p: nat,
        cs: seq<Connection>) returns (k: nat)
    requires Increasing(history) && AllFaithful(history) && SeenUpTo(history, last, p)
    requires AllConnected(history, size, last, cs) && (cs != [] ==> p <= cs[0].begun)
    ensures forall i :: 0 <= i < |cs| ==> cs[i].cut <= |Written(cs[i].pieces)|
    ensures p + k <= |history| && Heard(last, cs) == AllSent(history[p..p + k])
    ensures if cs == [] then k == 0 else ReadOut(cs[|cs| - 1]) ==> p + k == cs[|cs| - 1].m
    decreases |cs|
  {
    hide Text, Interpret, LastId, Follows, Increasing, AllFaithful, Connected, AllConnected, ParseId, Written, IdOf,
        AllSent, ReadOut, Heard;
    AllConnectedCut(history, size, last, cs);
    if cs == [] {
      k := 0;
      NothingSent(history, p);
      HeardNothing(last);
    } else {
      var c := cs[0];
      HeardFirst(last, cs);
      LastOfRest(cs);
      FirstConnected(history, size, last, cs);
      var a := OneConnection(history, size, last, p, c);
      var next := LastId(last, Written(c.pieces)[..c.cut]);
      var b := NothingTwiceNothingMissed(history, size, next, p + a, cs[1..]);
      k := a + b;
      AllSentSplit(history, p, a, b);
    }
  }

  /** None of the connections that were read out had anything for the client. */
  ghost predicate AllIdle(cs: seq<Connection>) {
    forall j :: 0 <= j < |cs| && ReadOut(cs[j]) ==> cs[j].begun == cs[j].m
  }

  lemma OneIdle(cs: seq<Connection>, i: nat)
    requires i < |cs| && AllIdle(cs[1..][..i]) && (ReadOut(cs[0]) ==> cs[0].begun == cs[0].m)
    ensures AllIdle(cs[..i + 1])
  {
    var some := cs[..i + 1];
    assert forall j :: 1 <= j < |some| ==> some[j] == cs[1..][..i][j - 1];
  }

  /** The connection i is the first that gives something, k messages from p on; all of them
      when the last connection is read out. */
  ghost predicate Picks(history: seq<Put>, cs: seq<Connection>, i: nat, p: nat, k: nat) {
    && p + k <= |history| && i <= |cs| && AllIdle(cs[..i])
    && (if i == |cs| then k == 0 else p == cs[i].begun)
    && (i < |cs| && ReadOut(cs[|cs| - 1]) ==> p + k == cs[|cs| - 1].m)
  }

  lemma PicksNothing(history: seq<Put>)
    ensures Picks(history, [], 0, 0, 0)
  {
  }

  lemma PicksLater(history: seq<Put>, cs: seq<Connection>, i: nat, p: nat, k: nat)
    requires cs != [] && Picks(history, cs[1..], i, p, k) && (ReadOut(cs[0]) ==> cs[0].begun == cs[0].m)
    ensures Picks(history, cs, i + 1, p, k)
  {
    hide ReadOut, AllIdle;
    OneIdle(cs, i);
  }

  lemma PicksNow(history: seq<Put>, cs: seq<Connection>, k: nat)
    requires cs != [] && cs[0].begun + k <= |history|
    requires ReadOut(cs[|cs| - 1]) ==> cs[0].begun + k == cs[|cs| - 1].m
    ensures Picks(history, cs, 0, cs[0].begun, k)
  {
  }

  /** The first connection gives messages. */
  lemma FromNowOn(history: seq<Put>, size: nat, cs: seq<Connection>) returns (k: nat)
    requires Increasing(history) && AllFaithful(history) && AllConnected(history, size, "", cs) && cs != []
    ensures forall i :: 0 <= i < |cs| ==> cs[i].cut <= |Written(cs[i].pieces)|
    ensures LastId("", Written(cs[0].pieces)[..cs[0].cut]) != "" ==>
              && Picks(history, cs, 0, cs[0].begun, k) && cs[0].begun + k <= |history|
              && Heard("", cs) == AllSent(history[cs[0].begun..cs[0].begun + k])
  {
    hide Text, Interpret, LastId, Follows, Increasing, AllFaithful, Connected, AllConnected, ParseId, Written, IdOf,
        AllSent, ReadOut, Heard, Picks;
    AllConnectedCut(history, size, "", cs);
    var c := cs[0];
    FirstConnected(history, size, "", cs);
    HeardFirst("", cs);
    LastOfRest(cs);
    var a := FirstConnection(history, size, c);
    k := a;
    if a > 0 {
      var next := LastId("", Written(c.pieces)[..c.cut]);
      var b := NothingTwiceNothingMissed(history, size, next, c.begun + a, cs[1..]);
      k := a + b;
      AllSentSplit(history, c.begun, a, b);
      PicksNow(history, cs, k);
    }
  }

  /** The first connection gives nothing. */
  lemma NothingYet(history: seq<Put>, size: nat, cs: seq<Connection>)
    requires Increasing(history) && AllFaithful(history) && AllConnected(history, size, "", cs) && cs != []
    requires LastId("", Written(cs[0].pieces)[..cs[0].cut]) == ""
    ensures forall i :: 0 <= i < |cs| ==> cs[i].cut <= |Written(cs[i].pieces)|
    ensures forall i :: 0 <= i < |cs[1..]| ==> cs[1..][i].cut <= |Written(cs[1..][i].pieces)|
    ensures AllConnected(history, size, "", cs[1..]) && Heard("", cs) == Heard("", cs[1..])
    ensures ReadOut(cs[0]) ==> cs[0].begun == cs[0].m
  {
    hide Text, Interpret, LastId, Follows, Increasing, AllFaithful, Connected, AllConnected, ParseId, Written,
        AllSent, ReadOut, Heard, SeenUpTo;
    AllConnectedCut(history, size, "", cs);
    FirstConnected(history, size, "", cs);
    HeardFirst("", cs);
    var a := FirstConnection(history, size, cs[0]);
    if a > 0 {
      SeenHasId(history, "", cs[0].begun + a);
    }
    NothingSent(history, cs[0].begun);
    assert [] + Heard("", cs[1..]) == Heard("", cs[1..]);
  }

  lemma SeenHasId(history: seq<Put>, last: string, p: nat)
    requires SeenUpTo(history, last, p)
    ensures last != ""
  {
    IdComesBack(history[p - 1].key);
  }

  /** A new client gets nothing over its first i connections, of which none that was read out
      had anything for it; then it gets the messages put since the next connection was made,
      exactly once and in order, and all of them when its last connection is read out. */
  lemma {:induction false} FromTheFirst(history: seq<Put>, size: nat, cs: seq<Connection>)
    returns (i: nat, p: nat, k: nat)
    requires Increasing(history) && AllFaithful(history) && AllConnected(history, size, "", cs)
    ensures forall i :: 0 <= i < |cs| ==> cs[i].cut <= |Written(cs[i].pieces)|
    ensures Picks(history, cs, i, p, k) && p + k <= |history| && Heard("", cs) == AllSent(history[p..p + k])
    decreases |cs|
  {
    hide Text, Interpret, LastId, Increasing, AllFaithful, Connected, AllConnected, Written, IdOf, AllSent, ReadOut,
        Heard, Picks;
    AllConnectedCut(history, size, "", cs);
    if cs == [] {
      i, p, k := 0, 0, 0;
      PicksNothing(history);
      NothingSent(history, 0);
      HeardNothing("");
    } else if LastId("", Written(cs[0].pieces)[..cs[0].cut]) == "" {
      NothingYet(history, size, cs);
      i, p, k := FromTheFirst(history, size, cs[1..]);
      PicksLater(history, cs, i, p, k);
      i := i + 1;
    } else {
      i, p := 0, cs[0].begun;
      k := FromNowOn(history, size, cs);
    }
  }
}
