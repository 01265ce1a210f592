/** `GET /api/tags`: the distinct tags on the caller's own pens, in ascending
    order, or 401 when the session carries no user id. */
module TagsRoute {
  import opened Common
  import opened StringOrder

  const UnauthorizedError := "Unauthorized"

  datatype Reply = TagList(tags: seq<string>) | Unauthorized(status: int, error: string)

  /** `session?.user?.id` when it is truthy: absent sessions, users and ids, and
      the empty id, all count as no user. */
  function UserId(session: Option<Session>): (uid: Option<string>)
    ensures uid.Some? ==> uid.value != ""
    ensures uid.None? <==> session.None? || session.value.user.None?
                           || session.value.user.value.id.None? || session.value.user.value.id.value == ""
  {
    if session.Some? && session.value.user.Some? && session.value.user.value.id.Some?
       && session.value.user.value.id.value != ""
    then session.value.user.value.id
    else None
  }

  /** The pen with this id belongs to `uid`. */
  predicate OwnedBy(uid: string, pens: seq<Pen>, penId: int) {
    exists p :: p in pens && p.id == penId && p.user_id == Some(uid)
  }

  /** The `tag` column of `pen_tags pt JOIN pens p ON pt.pen_id = p.id WHERE
      p.user_id = ?`. */
  function JoinedTags(uid: string, pens: seq<Pen>, penTags: seq<PenTag>): (r: seq<string>)
    ensures forall t :: t in r <==> exists pt :: pt in penTags && pt.tag == t && OwnedBy(uid, pens, pt.pen_id)
  {
    if penTags == [] then []
    else
      var rest := JoinedTags(uid, pens, penTags[1..]);
      assert forall pt :: pt in penTags <==> pt == penTags[0] || pt in penTags[1..];
      if OwnedBy(uid, pens, penTags[0].pen_id) then [penTags[0].tag] + rest else rest
  }

  /** The handler. The tables are only read once a user id is known. */
  function Get(session: Option<Session>, pens: seq<Pen>, penTags: seq<PenTag>): (r: Reply)
    ensures UserId(session).None? <==> r.Unauthorized?
    ensures r.Unauthorized? ==> r.status == 401 && r.error == UnauthorizedError
    ensures r.TagList? ==> StrictlyAscending(r.tags) && NoDuplicates(r.tags)
    ensures r.TagList? ==> forall t :: t in r.tags <==>
              exists pt :: pt in penTags && pt.tag == t && OwnedBy(UserId(session).value, pens, pt.pen_id)
  {
    match UserId(session)
    case None => Unauthorized(401, UnauthorizedError)
    case Some(uid) =>
      var tags := SortedDistinct(JoinedTags(uid, pens, penTags));
      StrictlyAscendingHasNoDuplicates(tags);
      TagList(tags)
  }

  /** Without a user id the reply does not depend on the tables. */
  lemma UnauthorizedReadsNothing(session: Option<Session>, pens1: seq<Pen>, tags1: seq<PenTag>,
                                 pens2: seq<Pen>, tags2: seq<PenTag>)
    requires UserId(session).None?
    ensures Get(session, pens1, tags1) == Get(session, pens2, tags2) == Unauthorized(401, UnauthorizedError)
  {
  }

  /** Another owner's pen and its tags change nothing in the caller's list. */
  lemma OtherOwnersInvisible(session: Option<Session>, pens: seq<Pen>, penTags: seq<PenTag>,
                             q: Pen, extra: seq<PenTag>)
    requires UserId(session).Some? && q.user_id != UserId(session)
    requires forall p :: p in pens ==> p.id != q.id
    requires forall pt :: pt in extra ==> pt.pen_id == q.id
    ensures Get(session, pens + [q], penTags + extra) == Get(session, pens, penTags)
  {
    var uid := UserId(session).value;
    var r1 := Get(session, pens + [q], penTags + extra);
    var r2 := Get(session, pens, penTags);
    forall id: int ensures OwnedBy(uid, pens + [q], id) <==> OwnedBy(uid, pens, id) {
      if OwnedBy(uid, pens + [q], id) {
        var p :| p in pens + [q] && p.id == id && p.user_id == Some(uid);
        assert p in pens;
      }
      if OwnedBy(uid, pens, id) {
        var p :| p in pens && p.id == id && p.user_id == Some(uid);
        assert p in pens + [q];
      }
    }
    forall t ensures t in r1.tags <==> t in r2.tags {
      if t in r1.tags {
        var pt :| pt in penTags + extra && pt.tag == t && OwnedBy(uid, pens + [q], pt.pen_id);
        assert pt in penTags;
      }
      if t in r2.tags {
        var pt :| pt in penTags && pt.tag == t && OwnedBy(uid, pens, pt.pen_id);
        assert pt in penTags + extra;
      }
    }
    StrictlyAscendingUnique(r1.tags, r2.tags);
  }
}
