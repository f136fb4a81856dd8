/**
  The video handlers of app/api/v1/controller/video_controller.go and the
  broadcast hub beside them: a bounded intake queue of newly authenticated
  WebSocket subscribers, the ordered registry it drains into, and the fan-out
  of each newly created video to every registered subscriber but its creator.
*/
module VideoController {
  import opened Wrappers
  import opened Errors
  import opened Strconv
  import opened Status
  import opened BaseController
  import Entity
  import Authn

  /** The Video a client receives. */
  datatype Video = Video(id: Uint, url: string, sharedBy: string, description: string,
                         createdAt: Entity.Time, updatedAt: Entity.Time)

  /** NewVideoFromEntity: nil for nil, otherwise the record's six fields. */
  function NewVideoFromEntity(e: Option<Entity.Video>): (v: Option<Video>)
    ensures v.None? <==> e.None?
    ensures e.Some? ==> RecordOf(v.value) == e.value
  {
    match e
    case None => None
    case Some(r) => Some(Video(r.id, r.url, r.sharedBy, r.description, r.createdAt, r.updatedAt))
  }

  /** nil maps to nil, and otherwise every field is copied unchanged. */
  lemma NewVideoFromEntityCopies(e: Option<Entity.Video>)
    ensures NewVideoFromEntity(e).None? <==> e.None?
    ensures e.Some? ==>
      var v, r := NewVideoFromEntity(e).value, e.value;
      v.id == r.id && v.url == r.url && v.sharedBy == r.sharedBy && v.description == r.description &&
      v.createdAt == r.createdAt && v.updatedAt == r.updatedAt
  {
  }

  /** The record a served Video was made from. */
  function RecordOf(v: Video): Entity.Video
  {
    Entity.Video(v.id, v.url, v.sharedBy, v.description, v.createdAt, v.updatedAt)
  }

  /** Nothing is lost in the mapping: the record can be read back from the Video, and every Video comes from one. */
  lemma NewVideoFromEntityRoundTrip(r: Entity.Video, v: Video)
    ensures NewVideoFromEntity(Some(r)) == Some(v) <==> RecordOf(v) == r
  {
  }

  // ---------------------------------------------------------------------------
  // Subscribers and the broadcast hub
  // ---------------------------------------------------------------------------

  /** A *websocket.Conn, by identity. */
  datatype Conn = Conn(handle: nat)

  /** Subscriber: the user it belongs to, the peer address and the connection (nil for non-WebSocket users). */
  datatype Subscriber = Subscriber(uid: Uint, ip: string, conn: Option<Conn>)

  /** The buffer size of the `subscribe` channel. */
  const IntakeCapacity: nat := 100

  /** A serialised message. */
  type Bytes = seq<bv8>

  /** One WriteMessage attempt: registry position, connection, payload, and whether the write succeeded. */
  datatype Write = Write(index: nat, conn: Conn, payload: Bytes, delivered: bool)

  /** A subscriber gets a broadcast from uid when it is someone else and has a connection. */
  predicate Receives(s: Subscriber, uid: Uint): (b: bool)
    ensures s.uid == uid ==> !b
    ensures s.conn.None? ==> !b
    ensures s.uid != uid && s.conn.Some? ==> b
  {
    s.uid != uid && s.conn.Some?
  }

  /**
    The writes a broadcast of data from uid makes over registry, front to back;
    send gives the outcome of writing data on a connection.
  */
  function Fanout(registry: seq<Subscriber>, uid: Uint, data: Bytes, send: (Conn, Bytes) -> bool): (w: seq<Write>)
    ensures |w| <= |registry|
    ensures forall k | 0 <= k < |w| :: w[k].payload == data
    ensures (forall i | 0 <= i < |registry| :: !Receives(registry[i], uid)) ==> w == []
  {
    if registry == [] then []
    else
      var n := |registry| - 1;
      var s := registry[n];
      assert forall i | 0 <= i < n :: registry[..n][i] == registry[i];
      Fanout(registry[..n], uid, data, send) +
      (if Receives(s, uid) then [Write(n, s.conn.value, data, send(s.conn.value, data))] else [])
  }

  /**
    Every write goes to a registry entry that is not the creator's and has a
    connection, on that entry's connection, with the one payload, and records
    the network's answer.
  */
  lemma {:induction false} FanoutSound(registry: seq<Subscriber>, uid: Uint, data: Bytes, send: (Conn, Bytes) -> bool)
    ensures forall k | 0 <= k < |Fanout(registry, uid, data, send)| ::
      var w := Fanout(registry, uid, data, send)[k];
      && w.index < |registry|
      && Receives(registry[w.index], uid)
      && registry[w.index].conn == Some(w.conn)
      && w.payload == data
      && w.delivered == send(w.conn, data)
  {
    if registry != [] {
      var n := |registry| - 1;
      var prefix := registry[..n];
      FanoutSound(prefix, uid, data, send);
      var w, w' := Fanout(registry, uid, data, send), Fanout(prefix, uid, data, send);
      forall k | 0 <= k < |w|
        ensures w[k].index < |registry| && Receives(registry[w[k].index], uid)
        ensures registry[w[k].index].conn == Some(w[k].conn)
        ensures w[k].payload == data && w[k].delivered == send(w[k].conn, data)
      {
        if k < |w'| {
          assert w[k] == w'[k];
          assert prefix[w'[k].index] == registry[w'[k].index];
        }
      }
    }
  }

  /** The writes follow registry order, so no entry is written twice. */
  lemma {:induction false} FanoutInOrder(registry: seq<Subscriber>, uid: Uint, data: Bytes, send: (Conn, Bytes) -> bool)
    ensures forall j, k | 0 <= j < k < |Fanout(registry, uid, data, send)| ::
      Fanout(registry, uid, data, send)[j].index < Fanout(registry, uid, data, send)[k].index
  {
    if registry != [] {
      var n := |registry| - 1;
      var prefix := registry[..n];
      FanoutInOrder(prefix, uid, data, send);
      FanoutSound(prefix, uid, data, send);
      var w, w' := Fanout(registry, uid, data, send), Fanout(prefix, uid, data, send);
      forall j, k | 0 <= j < k < |w|
        ensures w[j].index < w[k].index
      {
        assert w[j] == w'[j];
        if k < |w'| {
          assert w[k] == w'[k];
        } else {
          assert w[k].index == n;
        }
      }
    }
  }

  /** Every entry that is not the creator's and has a connection is written to. */
  lemma {:induction false} FanoutComplete(registry: seq<Subscriber>, uid: Uint, data: Bytes,
                                          send: (Conn, Bytes) -> bool, i: nat)
    requires i < |registry| && Receives(registry[i], uid)
    ensures exists k | 0 <= k < |Fanout(registry, uid, data, send)| :: Fanout(registry, uid, data, send)[k].index == i
  {
    var n := |registry| - 1;
    var w := Fanout(registry, uid, data, send);
    if i < n {
      assert Receives(registry[..n][i], uid);
      FanoutComplete(registry[..n], uid, data, send, i);
      var w' := Fanout(registry[..n], uid, data, send);
      var k :| 0 <= k < |w'| && w'[k].index == i;
      assert w[k] == w'[k];
    } else {
      assert w[|w| - 1].index == i;
    }
  }

  /** A subscriber appended to the registry is written to after everyone before it, if at all. */
  lemma FanoutAppend(registry: seq<Subscriber>, s: Subscriber, uid: Uint, data: Bytes, send: (Conn, Bytes) -> bool)
    ensures Fanout(registry + [s], uid, data, send) ==
      Fanout(registry, uid, data, send) +
      (if Receives(s, uid) then [Write(|registry|, s.conn.value, data, send(s.conn.value, data))] else [])
  {
    assert (registry + [s])[..|registry|] == registry;
  }

  /** Subscriber A (user 1) and B (user 2) are registered and user 1 creates a video: B alone gets one message. */
  lemma TwoSubscribersScenario(data: Bytes, send: (Conn, Bytes) -> bool)
    ensures var a, b := Subscriber(1, "a", Some(Conn(1))), Subscriber(2, "b", Some(Conn(2)));
      Fanout([a, b], 1, data, send) == [Write(1, Conn(2), data, send(Conn(2), data))]
  {
    var a, b := Subscriber(1, "a", Some(Conn(1))), Subscriber(2, "b", Some(Conn(2)));
    assert [a, b][..1] == [a];
    assert [a][..0] == [];
    assert Fanout([a], 1, data, send) == [];
  }

  /**
    The process-wide `subscribe` channel and `subscribers` list. `admitted`
    records every subscriber ever submitted, in submission order.
  */
  class Hub {
    var queue: seq<Subscriber>
    var registry: seq<Subscriber>
    ghost var admitted: seq<Subscriber>

    /** The channel holds at most 100 entries, and the registry followed by the queue is the submission order. */
    ghost predicate Valid()
      reads this
    {
      |queue| <= IntakeCapacity && admitted == registry + queue
    }

    constructor ()
      ensures Valid() && queue == [] && registry == [] && admitted == []
    {
      queue := [];
      registry := [];
      admitted := [];
    }

    /** subscribe <- s: a send on a full channel blocks, so it completes only when there is room. */
    method Submit(s: Subscriber)
      requires Valid() && |queue| < IntakeCapacity
      modifies this
      ensures Valid()
      ensures queue == old(queue) + [s] && registry == old(registry) && admitted == old(admitted) + [s]
    {
      queue := queue + [s];
      admitted := admitted + [s];
    }

    /** One turn of handleScription: receive the oldest queued subscriber (blocking while empty), then PushBack it. */
    method DrainOne() returns (s: Subscriber)
      requires Valid() && queue != []
      modifies this
      ensures Valid()
      ensures s == old(queue)[0] && queue == old(queue)[1..]
      ensures registry == old(registry) + [s] && admitted == old(admitted)
    {
      s := queue[0];
      queue := queue[1..];
      registry := registry + [s];
    }

    /** handleScription run until the channel is empty: the registry gains the queued subscribers in queue order. */
    method DrainPending()
      requires Valid()
      modifies this
      ensures Valid() && queue == []
      ensures registry == old(registry) + old(queue) && admitted == old(admitted)
    {
      while queue != []
        invariant Valid() && admitted == old(admitted)
        decreases |queue|
      {
        var _ := DrainOne();
      }
    }

    /**
      broadcastWebSocket(video, uid): serialise once, then write to every
      other user's live connection in registry order. A failed write is only
      logged; a failed serialisation writes nothing. The hub is not changed.
    */
    method Broadcast(video: Video, uid: Uint, marshal: Video -> Option<Bytes>, send: (Conn, Bytes) -> bool)
      returns (writes: seq<Write>)
      ensures marshal(video).None? ==> writes == []
      ensures marshal(video).Some? ==> writes == Fanout(registry, uid, marshal(video).value, send)
    {
      var data := marshal(video);
      if data.None? {
        return [];
      }
      writes := [];
      var i := 0;
      while i < |registry|
        invariant 0 <= i <= |registry|
        invariant writes == Fanout(registry[..i], uid, data.value, send)
      {
        var sub := registry[i];
        assert registry[..i + 1][..i] == registry[..i];
        if uid == sub.uid {
          i := i + 1;
          continue;
        }
        var ws := sub.conn;
        if ws.Some? {
          var ok := send(ws.value, data.value);
          writes := writes + [Write(i, ws.value, data.value, ok)];
        }
        i := i + 1;
      }
      assert registry[..i] == registry;
    }
  }

  // ---------------------------------------------------------------------------
  // JoinWebSocket, after the upgrade
  // ---------------------------------------------------------------------------

  /**
    The uid a new connection is admitted under: the first read must succeed,
    IsValidJWT must accept the message, and its `sub` must be an integer.
  */
  function JoinUid(firstMessage: Result<string, Error>, isValidJWT: string -> Option<Authn.MapClaims>): (u: Option<Uint>)
    ensures u.Some? ==> firstMessage.Success? && isValidJWT(firstMessage.value).Some?
    ensures u.Some? ==> Authn.SubjectUid(isValidJWT(firstMessage.value).value) == u
  {
    if firstMessage.Failure? then None
    else match isValidJWT(firstMessage.value)
      case None => None
      case Some(claims) => Authn.SubjectUid(claims)
  }

  /** A connection is admitted exactly when all three checks pass, under uint(Atoi(sub)). */
  lemma JoinAdmission(firstMessage: Result<string, Error>, isValidJWT: string -> Option<Authn.MapClaims>)
    ensures JoinUid(firstMessage, isValidJWT).Some? <==>
      firstMessage.Success? && isValidJWT(firstMessage.value).Some? &&
      Atoi(isValidJWT(firstMessage.value).value.sub).Some?
    ensures JoinUid(firstMessage, isValidJWT).Some? ==>
      JoinUid(firstMessage, isValidJWT).value == UintOf(Atoi(isValidJWT(firstMessage.value).value.sub).value)
  {
  }

  /**
    JoinWebSocket once the connection ws is upgraded: read the first message,
    check it, and either close ws or submit a subscriber for it. Submitting
    blocks on a full channel, so an admitted join completes only with room.
  */
  method JoinWebSocket(hub: Hub, ip: string, ws: Conn, firstMessage: Result<string, Error>,
                       isValidJWT: string -> Option<Authn.MapClaims>)
    returns (closed: bool)
    requires hub.Valid()
    requires JoinUid(firstMessage, isValidJWT).Some? ==> |hub.queue| < IntakeCapacity
    modifies hub
    ensures hub.Valid() && hub.registry == old(hub.registry)
    ensures closed <==> JoinUid(firstMessage, isValidJWT).None?
    ensures closed ==> hub.queue == old(hub.queue) && hub.admitted == old(hub.admitted)
    ensures !closed ==>
      hub.queue == old(hub.queue) + [Subscriber(JoinUid(firstMessage, isValidJWT).value, ip, Some(ws))]
  {
    if firstMessage.Failure? {
      return true;
    }
    var claims := isValidJWT(firstMessage.value);
    if claims.None? {
      return true;
    }
    var uid := Atoi(claims.value.sub);
    if uid.None? {
      return true;
    }
    hub.Submit(Subscriber(UintOf(uid.value), ip, Some(ws)));
    closed := false;
  }

  // ---------------------------------------------------------------------------
  // GetVideo
  // ---------------------------------------------------------------------------

  /** What GetVideo serves: the HTTP status, then the JSON body. */
  datatype GetVideoReply = GetVideoReply(status: int, code: int, message: string, video: Option<Video>)

  /**
    GetVideo for the ":id" path parameter idParam; get is VRepo.Get, whose
    success may carry a nil record (None), which is served as 200 with no video.
  */
  method GetVideo(idParam: string, get: Uint -> Result<Option<Entity.Video>, Error>) returns (reply: GetVideoReply)
    ensures reply.status == HttpStatus(reply.code)
    ensures ParseUint(idParam).None? ==> reply == GetVideoReply(400, BadRequest, "id is invalid", None)
    ensures ParseUint(idParam).Some? ==>
      match get(ParseUint(idParam).value)
      case Failure(RecordNotFound) => reply == GetVideoReply(404, NotFound, "video not found", None)
      case Failure(Failed(_)) => reply == GetVideoReply(500, InternalServerError, "", None)
      case Success(r) => reply == GetVideoReply(200, OK, "", NewVideoFromEntity(r))
  {
    var resp := new Response(OK);
    var video: Option<Video> := None;
    var id := ParseUint(idParam);
    if id.None? {
      resp.code := BadRequest;
      resp.message := "id is invalid";
    } else {
      var found := get(id.value);
      if found.Failure? {
        if found.error == RecordNotFound {
          resp.code := NotFound;
          resp.message := "video not found";
        } else {
          resp.code := InternalServerError;
        }
      } else {
        video := NewVideoFromEntity(found.value);
      }
    }
    HttpStatusOfCodes();
    reply := GetVideoReply(HttpStatus(resp.code), resp.code, resp.message, video);
  }

  // ---------------------------------------------------------------------------
  // CreateVideo
  // ---------------------------------------------------------------------------

  datatype CreateVideoRequest = CreateVideoRequest(url: string, description: string)

  /** What CreateVideo serves: the HTTP status, then the JSON body. */
  datatype CreateVideoReply = CreateVideoReply(status: int, code: int, message: string, video: Option<Video>)

  /** The collaborator calls CreateVideo makes, in order. */
  datatype CreateCall = GetUser(uid: Uint) | AddVideo(record: Entity.Video) | BroadcastVideo(video: Video, uid: Uint)

  /** The record CreateVideo asks the repository to add. */
  function NewRecord(req: CreateVideoRequest, user: Entity.User): Entity.Video
  {
    Entity.Video(0, req.url, user.email, req.description, Entity.ZeroTime, Entity.ZeroTime)
  }

  /**
    CreateVideo by user uid. request is the decoded body, validate the
    validator, getUser URepo.Get, add VRepo.Add; marshal and send are the
    broadcast's serialiser and network.
  */
  method CreateVideo(hub: Hub, uid: Uint, request: Result<CreateVideoRequest, Error>,
                     validate: CreateVideoRequest -> Validation,
                     getUser: Uint -> Result<Entity.User, Error>,
                     add: Entity.Video -> Result<Entity.Stored, Error>,
                     marshal: Video -> Option<Bytes>, send: (Conn, Bytes) -> bool)
    returns (reply: CreateVideoReply, calls: seq<CreateCall>, writes: seq<Write>)
    ensures reply.status == HttpStatus(reply.code)
    ensures request.Failure? ==>
      reply == CreateVideoReply(400, BadRequest, request.error.Text(), None) && calls == [] && writes == []
    ensures request.Success? ==>
      match validate(request.value)
      case ValidatorFailed(err) =>
        reply == CreateVideoReply(500, InternalServerError, err.Text(), None) && calls == [] && writes == []
      case Checked(errs) =>
        if errs != [] then
          reply == CreateVideoReply(400, BadRequest, ValidationText(errs), None) && calls == [] && writes == []
        else
          match getUser(uid)
          case Failure(err) =>
            reply == CreateVideoReply(500, InternalServerError, err.Text(), None) &&
            calls == [GetUser(uid)] && writes == []
          case Success(user) =>
            var record := NewRecord(request.value, user);
            match add(record)
            case Failure(err) =>
              reply == CreateVideoReply(500, InternalServerError, err.Text(), None) &&
              calls == [GetUser(uid), AddVideo(record)] && writes == []
            case Success(stored) =>
              var video := NewVideoFromEntity(Some(Entity.StoreVideo(record, stored))).value;
              reply == CreateVideoReply(201, Created, "", Some(video)) &&
              calls == [GetUser(uid), AddVideo(record), BroadcastVideo(video, uid)] &&
              (marshal(video).None? ==> writes == []) &&
              (marshal(video).Some? ==> forall k | 0 <= k < |writes| ::
                 writes[k].payload == marshal(video).value && writes[k].delivered == send(writes[k].conn, writes[k].payload))
  {
    var resp := new Response(OK);
    var result: Option<Video> := None;
    calls, writes := [], [];
    HttpStatusOfCodes();
    if request.Failure? {
      resp.code := BadRequest;
      resp.SetError(request.error);
      reply := CreateVideoReply(HttpStatus(resp.code), resp.code, resp.message, result);
      return;
    }
    var req := request.value;
    var validation := validate(req);
    if validation.ValidatorFailed? {
      resp.code := InternalServerError;
      resp.SetError(validation.err);
      reply := CreateVideoReply(HttpStatus(resp.code), resp.code, resp.message, result);
      return;
    }
    if validation.errors != [] {
      resp.code := BadRequest;
      resp.SetValidationErrors(validation.errors);
      reply := CreateVideoReply(HttpStatus(resp.code), resp.code, resp.message, result);
      return;
    }
    var video := Entity.Video(0, req.url, "", req.description, Entity.ZeroTime, Entity.ZeroTime);
    calls := calls + [GetUser(uid)];
    var user := getUser(uid);
    if user.Failure? {
      resp.code := InternalServerError;
      resp.SetError(user.error);
      reply := CreateVideoReply(HttpStatus(resp.code), resp.code, resp.message, result);
      return;
    }
    video := video.(sharedBy := user.value.email);
    calls := calls + [AddVideo(video)];
    var added := add(video);
    if added.Failure? {
      resp.code := InternalServerError;
      resp.SetError(added.error);
      reply := CreateVideoReply(HttpStatus(resp.code), resp.code, resp.message, result);
      return;
    }
    video := Entity.StoreVideo(video, added.value);
    var payload := NewVideoFromEntity(Some(video)).value;
    calls := calls + [BroadcastVideo(payload, uid)];
    writes := hub.Broadcast(payload, uid, marshal, send);
    if marshal(payload).Some? {
      FanoutSound(hub.registry, uid, marshal(payload).value, send);
    }
    resp.code := Created;
    result := NewVideoFromEntity(Some(video));
    reply := CreateVideoReply(HttpStatus(resp.code), resp.code, resp.message, result);
  }

  // ---------------------------------------------------------------------------
  // ListVideos
  // ---------------------------------------------------------------------------

  datatype ListVideosRequest = ListVideosRequest(page: int, limit: int, sort: string)

  /** What ListVideos serves: the HTTP status, then the JSON body. */
  datatype ListVideosReply = ListVideosReply(status: int, code: int, message: string,
                                             total: int, page: int, limit: int, items: seq<Video>)

  /** The items built from a repository page: each non-nil record's Video, in page order. */
  function Items(records: seq<Option<Entity.Video>>): (items: seq<Video>)
    ensures |items| <= |records|
    ensures (forall i | 0 <= i < |records| :: records[i].None?) ==> items == []
  {
    if records == [] then []
    else
      var n := |records| - 1;
      assert forall i | 0 <= i < n :: records[..n][i] == records[i];
      Items(records[..n]) + (if records[n].Some? then [NewVideoFromEntity(records[n]).value] else [])
  }

  /** The items of two pages in a row are the first page's items, then the second's. */
  lemma {:induction false} ItemsAppend(a: seq<Option<Entity.Video>>, b: seq<Option<Entity.Video>>)
    ensures Items(a + b) == Items(a) + Items(b)
  {
    if b == [] {
      assert a + b == a;
    } else {
      var b' := b[..|b| - 1];
      assert (a + b)[..|a + b| - 1] == a + b';
      ItemsAppend(a, b');
    }
  }

  /** nil records are skipped and nothing else changes: Items(records) lists exactly the non-nil records, in order. */
  lemma {:induction false} ItemsSkipNil(records: seq<Option<Entity.Video>>)
    ensures Items(records + [None]) == Items(records)
    ensures forall r: Entity.Video :: Items(records + [Some(r)]) == Items(records) + [NewVideoFromEntity(Some(r)).value]
  {
    assert (records + [None])[..|records|] == records;
    forall r: Entity.Video
      ensures Items(records + [Some(r)]) == Items(records) + [NewVideoFromEntity(Some(r)).value]
    {
      assert (records + [Some(r)])[..|records|] == records;
    }
  }

  /** When the page has no nil record, the i-th item is the i-th record's Video. */
  lemma {:induction false} ItemsAllPresent(records: seq<Option<Entity.Video>>)
    requires forall i | 0 <= i < |records| :: records[i].Some?
    ensures |Items(records)| == |records|
    ensures forall i | 0 <= i < |records| :: Items(records)[i] == NewVideoFromEntity(records[i]).value
  {
    if records != [] {
      var n := |records| - 1;
      var prefix := records[..n];
      assert forall i | 0 <= i < n :: prefix[i] == records[i];
      ItemsAllPresent(prefix);
      assert Items(records) == Items(prefix) + [NewVideoFromEntity(records[n]).value];
    }
  }

  /** Every item is the Video of some non-nil record of the page. */
  lemma {:induction false} ItemsFromRecords(records: seq<Option<Entity.Video>>)
    ensures forall v | v in Items(records) ::
      exists i | 0 <= i < |records| :: records[i].Some? && v == NewVideoFromEntity(records[i]).value
  {
    if records != [] {
      var n := |records| - 1;
      ItemsFromRecords(records[..n]);
      forall v | v in Items(records)
        ensures exists i | 0 <= i < |records| :: records[i].Some? && v == NewVideoFromEntity(records[i]).value
      {
        if v in Items(records[..n]) {
          var i :| 0 <= i < n && records[..n][i].Some? && v == NewVideoFromEntity(records[..n][i]).value;
          assert records[i] == records[..n][i];
        } else {
          assert records[n].Some? && v == NewVideoFromEntity(records[n]).value;
        }
      }
    }
  }

  /**
    ListVideos. form is the parsed query, validate the validator, getRange
    VRepo.GetRangeByQuery(sort, limit, page) and count the answer of VRepo.Count.
  */
  method ListVideos(form: Result<ListVideosRequest, Error>, validate: ListVideosRequest -> Validation,
                    getRange: (string, int, int) -> Result<seq<Option<Entity.Video>>, Error>,
                    count: Result<int, Error>)
    returns (reply: ListVideosReply)
    ensures reply.status == HttpStatus(reply.code)
    ensures form.Failure? ==> reply == ListVideosReply(400, BadRequest, form.error.Text(), 0, 0, 0, [])
    ensures form.Success? ==>
      var req := form.value;
      match validate(req)
      case ValidatorFailed(err) => reply == ListVideosReply(500, InternalServerError, err.Text(), 0, 0, 0, [])
      case Checked(errs) =>
        if errs != [] then reply == ListVideosReply(400, BadRequest, ValidationText(errs), 0, 0, 0, [])
        else match getRange(req.sort, req.limit, req.page)
          case Failure(err) => reply == ListVideosReply(500, InternalServerError, err.Text(), 0, 0, 0, [])
          case Success(records) =>
            match count
            case Failure(err) => reply == ListVideosReply(500, InternalServerError, err.Text(), 0, 0, 0, [])
            case Success(total) => reply == ListVideosReply(200, OK, "", total, req.page, req.limit, Items(records))
  {
    var resp := new Response(OK);
    var items: seq<Video> := [];
    var total, page, limit := 0, 0, 0;
    HttpStatusOfCodes();
    if form.Failure? {
      resp.code := BadRequest;
      resp.SetError(form.error);
    } else {
      var req := form.value;
      var validation := validate(req);
      if validation.ValidatorFailed? {
        resp.code := InternalServerError;
        resp.SetError(validation.err);
      } else if validation.errors != [] {
        resp.code := BadRequest;
        resp.SetValidationErrors(validation.errors);
      } else {
        var videos := getRange(req.sort, req.limit, req.page);
        if videos.Failure? {
          resp.code := InternalServerError;
          resp.SetError(videos.error);
        } else if count.Failure? {
          resp.code := InternalServerError;
          resp.SetError(count.error);
        } else {
          page, limit, total := req.page, req.limit, count.value;
          var records := videos.value;
          for i := 0 to |records|
            invariant items == Items(records[..i])
          {
            assert records[..i + 1][..i] == records[..i];
            var video := NewVideoFromEntity(records[i]);
            if records[i].Some? {
              items := items + [video.value];
            }
          }
          assert records[..|records|] == records;
        }
      }
    }
    reply := ListVideosReply(HttpStatus(resp.code), resp.code, resp.message, total, page, limit, items);
  }
}
