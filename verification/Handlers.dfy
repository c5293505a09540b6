/** The three ways into the store: a client's PUT, a client's GET, and a pull from a peer. */
module Handlers {
  import opened Prelude
  import opened Utf8
  import opened Messages
  import opened Codecs
  import opened Authentication
  import opened KeyDb

  /** The program's surroundings: the codec, the signature scheme, and the address string decoder. */
  datatype Env = Env(codec: Codec, sig: SigScheme, decodeAddress: Bytes -> Option<Bytes>)

  datatype ServerError =
    | Validation(error: ValidationError)
    | NotFound
    | MetadataDecode
    | PayloadDecode
    | UnsupportedSigScheme
    | Address

  /** A record that has passed every check that does not involve the store. */
  datatype Candidate = Candidate(body: Bytes, metadata: AddressMetadata, payload: Payload)

  // ---- Screening ----

  /** A streamed request body; a chunk that fails to arrive spoils it. */
  function Joined(chunks: seq<Option<Bytes>>): Option<Bytes> {
    if chunks == [] then Some([])
    else if chunks[0].None? then None
    else match Joined(chunks[1..])
      case None => None
      case Some(rest) => Some(chunks[0].value + rest)
  }

  function ScreenPut(env: Env, addr: Bytes, chunks: seq<Option<Bytes>>): Result<Candidate, ServerError> {
    match Joined(chunks)
    case None => Err(MetadataDecode)
    case Some(raw) =>
      match env.codec.decode(raw)
      case None => Err(MetadataDecode)
      case Some(metadata) =>
        match env.decodeAddress(addr)
        case None => Err(Address)
        case Some(body) =>
          if metadata.scheme != ECDSA then Err(UnsupportedSigScheme)
          else
            match Validate(env.sig, body, metadata)
            case Err(e) => Err(Validation(e))
            case Ok(_) =>
              match env.codec.decodePayload(metadata.serializedPayload)
              case None => Err(PayloadDecode)
              case Some(payload) => Ok(Candidate(body, metadata, payload))
  }

  /** A pull makes the same checks except one: the scheme a record claims is not looked at. */
  function ScreenPull(env: Env, body: Bytes, response: Option<Bytes>): Option<Candidate> {
    match response
    case None => None
    case Some(raw) =>
      match env.codec.decode(raw)
      case None => None
      case Some(metadata) =>
        match Validate(env.sig, body, metadata)
        case Err(_) => None
        case Ok(_) =>
          match env.codec.decodePayload(metadata.serializedPayload)
          case None => None
          case Some(payload) => Some(Candidate(body, metadata, payload))
  }

  // ---- Offering a candidate to the store ----

  function Offer(c: Codec, t: Table, cand: Candidate, t0: int, t1: int, disk: Disk): Table {
    if GetFails(c, t, cand.body, t0, disk) then t
    else
      var t' := AfterGet(c, t, cand.body, t0);
      if CheckAnswer(c, t, cand.body, cand.payload, t0, t1) == Done(Ok(())) && disk.writeOk
      then t'[cand.body := c.encode(cand.metadata)]
      else t'
  }

  function OfferAnswer(c: Codec, t: Table, cand: Candidate, t0: int, t1: int, disk: Disk)
    : Db<Result<(), ServerError>>
  {
    if GetFails(c, t, cand.body, t0, disk) then IoError
    else
      match CheckAnswer(c, t, cand.body, cand.payload, t0, t1)
      case IoError => IoError
      case Panicked => Panicked
      case Done(Err(e)) => Done(Err(Validation(e)))
      case Done(Ok(_)) => if disk.writeOk then Done(Ok(())) else IoError
  }

  // ---- Whole requests ----

  function PutTable(env: Env, t: Table, addr: Bytes, chunks: seq<Option<Bytes>>, t0: int, t1: int, disk: Disk): Table {
    match ScreenPut(env, addr, chunks)
    case Err(_) => t
    case Ok(cand) => Offer(env.codec, t, cand, t0, t1, disk)
  }

  /** One item of the peer stream together with how the world reacts to it. */
  datatype PollItem = PollItem(
    details: Option<(Str, Bytes)>,
    encodable: bool,
    response: Option<Bytes>,
    t0: int,
    t1: int,
    disk: Disk)

  function PollTable(env: Env, t: Table, item: PollItem): Table {
    if item.details.None? || !item.encodable then t
    else
      match ScreenPull(env, item.details.value.1, item.response)
      case None => t
      case Some(cand) => Offer(env.codec, t, cand, item.t0, item.t1, item.disk)
  }

  function PollAll(env: Env, t: Table, items: seq<PollItem>): Table {
    if items == [] then t
    else PollTable(env, PollAll(env, t, items[..|items| - 1]), items[|items| - 1])
  }

  /** What a keyserver sends back for a GET. */
  function GetBody(c: Codec, t: Table, body: Bytes, now: int): Option<Bytes> {
    match GetAnswer(c, t, body, now)
    case Done(Some(metadata)) => Some(c.encode(metadata))
    case Done(None) => Some(NOT_FOUND)
    case IoError => Some(DB_ERROR)
    case Panicked => None
  }

  // ---- The handlers as written ----

  lemma {:induction false} JoinedSnoc(chunks: seq<Option<Bytes>>, last: Option<Bytes>)
    ensures Joined(chunks + [last]) ==
            if Joined(chunks).None? || last.None? then None else Some(Joined(chunks).value + last.value)
  {
    if chunks == [] {
      assert chunks + [last] == [last];
      assert Joined([last][1..]) == Some([]);
      if last.Some? {
        assert last.value + [] == [] + last.value;
      }
    } else {
      assert (chunks + [last])[1..] == chunks[1..] + [last];
      JoinedSnoc(chunks[1..], last);
      if chunks[0].Some? && Joined(chunks[1..]).Some? && last.Some? {
        var first, rest := chunks[0].value, Joined(chunks[1..]).value;
        assert first + (rest + last.value) == first + rest + last.value;
      }
    }
  }

  lemma {:induction false} JoinedPrefix(chunks: seq<Option<Bytes>>, i: nat)
    requires i <= |chunks| && Joined(chunks[..i]).None?
    ensures Joined(chunks).None?
    decreases |chunks| - i
  {
    if i < |chunks| {
      assert chunks[..i + 1] == chunks[..i] + [chunks[i]];
      JoinedSnoc(chunks[..i], chunks[i]);
      JoinedPrefix(chunks, i + 1);
    } else {
      assert chunks[..i] == chunks;
    }
  }

  /** The loop that fills a buffer from a request's stream, shared by the two handlers that have one. */
  method ReadBody(chunks: seq<Option<Bytes>>) returns (raw: Option<Bytes>)
    ensures raw == Joined(chunks)
  {
    var buffer: Bytes := [];
    var i := 0;
    while i < |chunks|
      invariant 0 <= i <= |chunks|
      invariant Joined(chunks[..i]) == Some(buffer)
    {
      assert chunks[..i + 1] == chunks[..i] + [chunks[i]];
      JoinedSnoc(chunks[..i], chunks[i]);
      if chunks[i].None? {
        JoinedPrefix(chunks, i + 1);
        return None;
      }
      buffer := buffer + chunks[i].value;
      i := i + 1;
    }
    assert chunks[..i] == chunks;
    return Some(buffer);
  }

  method GetKey(env: Env, db: KeyDB, addr: Bytes, now: int, disk: Disk) returns (r: Db<Result<Bytes, ServerError>>)
    requires db.codec == env.codec
    modifies db
    ensures env.decodeAddress(addr).None? ==> r == Done(Err(Address)) && db.table == old(db.table)
    ensures env.decodeAddress(addr).Some? ==>
              var body := env.decodeAddress(addr).value;
              if GetFails(env.codec, old(db.table), body, now, disk)
              then r == IoError && db.table == old(db.table)
              else
                && db.table == AfterGet(env.codec, old(db.table), body, now)
                && match GetAnswer(env.codec, old(db.table), body, now)
                   case Done(Some(metadata)) => r == Done(Ok(env.codec.encode(metadata)))
                   case Done(None) => r == Done(Err(NotFound))
                   case IoError => r == IoError
                   case Panicked => r == Panicked
  {
    var decoded := env.decodeAddress(addr);
    if decoded.None? {
      return Done(Err(Address));
    }
    var got := db.Get(decoded.value, now, disk);
    match got {
      case IoError => return IoError;
      case Panicked => return Panicked;
      case Done(None) => return Done(Err(NotFound));
      case Done(Some(metadata)) => return Done(Ok(env.codec.encode(metadata)));
    }
  }

  method PutKey(env: Env, db: KeyDB, addr: Bytes, chunks: seq<Option<Bytes>>, t0: int, t1: int, disk: Disk)
    returns (r: Db<Result<(), ServerError>>)
    requires db.codec == env.codec
    modifies db
    ensures db.table == PutTable(env, old(db.table), addr, chunks, t0, t1, disk)
    ensures match ScreenPut(env, addr, chunks)
            case Err(e) => r == Done(Err(e))
            case Ok(cand) => r == OfferAnswer(env.codec, old(db.table), cand, t0, t1, disk)
  {
    var raw := ReadBody(chunks);
    if raw.None? {
      return Done(Err(MetadataDecode));
    }
    var decoded := env.codec.decode(raw.value);
    if decoded.None? {
      return Done(Err(MetadataDecode));
    }
    var metadata := decoded.value;
    var body := env.decodeAddress(addr);
    if body.None? {
      return Done(Err(Address));
    }
    if metadata.scheme != 1 {
      return Done(Err(UnsupportedSigScheme));
    }
    var valid := Validate(env.sig, body.value, metadata);
    if valid.Err? {
      return Done(Err(Validation(valid.error)));
    }
    var payload := env.codec.decodePayload(metadata.serializedPayload);
    if payload.None? {
      return Done(Err(PayloadDecode));
    }
    var age := db.CheckTimestamp(body.value, payload.value, t0, t1, disk);
    match age {
      case IoError => return IoError;
      case Panicked => return Panicked;
      case Done(Err(e)) => return Done(Err(Validation(e)));
      case Done(Ok(_)) =>
        var put := db.Put(body.value, metadata, disk);
        if put.IoError? {
          return IoError;
        }
        return Done(Ok(()));
    }
  }

  class PeerClient {
    const env: Env

    constructor (env: Env)
      ensures this.env == env
    {
      this.env := env;
    }

    method Poll(db: KeyDB, item: PollItem)
      requires db.codec == env.codec
      modifies db
      ensures db.table == PollTable(env, old(db.table), item)
    {
      if item.details.None? {
        return;
      }
      var (_, body) := item.details.value;
      if !item.encodable || item.response.None? {
        return;
      }
      var decoded := env.codec.decode(item.response.value);
      if decoded.None? {
        return;
      }
      var metadata := decoded.value;
      var valid := Validate(env.sig, body, metadata);
      if valid.Err? {
        return;
      }
      var payload := env.codec.decodePayload(metadata.serializedPayload);
      if payload.None? {
        return;
      }
      var age := db.CheckTimestamp(body, payload.value, item.t0, item.t1, item.disk);
      if age != Done(Ok(())) {
        return;
      }
      var _ := db.Put(body, metadata, item.disk);
    }

    method PeerPolling(db: KeyDB, items: seq<PollItem>)
      requires db.codec == env.codec
      modifies db
      ensures db.table == PollAll(env, old(db.table), items)
    {
      var i := 0;
      while i < |items|
        invariant 0 <= i <= |items|
        invariant db.table == PollAll(env, old(db.table), items[..i])
      {
        assert items[..i + 1][..i] == items[..i];
        Poll(db, items[i]);
        i := i + 1;
      }
      assert items[..i] == items;
    }
  }
}
