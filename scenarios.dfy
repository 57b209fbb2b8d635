/**
 * Properties that span several requests, stated as client methods that call
 * the handlers in sequence and rely only on the handlers' contracts.
 */
module Scenarios {
  import opened Options
  import opened Seqs
  import opened Records
  import opened App

  /** Registering a second time with the same email always fails, whatever the other fields. */
  method RegisterTwice(app: Backend, first: RegisterForm, second: RegisterForm)
    returns (status1: int, status2: int)
    requires app.Valid()
    requires first.email == second.email
    modifies app
    ensures app.Valid()
    ensures status1 == 201 ==> status2 == 400 && |app.users| == |old(app.users)| + 1
  {
    var body1, body2;
    status1, body1 := app.Register(first);
    status2, body2 := app.Register(second);
  }

  /**
   * With a sound password policy, logging in with the credentials just
   * registered succeeds and answers with the new user's identity and role.
   */
  method RegisterThenLogin(app: Backend, form: RegisterForm) returns (status1: int, status2: int, body2: Body)
    requires app.Valid() && Sound(app.policy)
    modifies app
    ensures status1 == 201 ==>
              status2 == 200 && body2.LoggedIn?
              && body2.userId == NextId(old(app.users), UserId)
              && form.username.Some? && body2.username == form.username.value
              && body2.role == RequestedRole(form)
  {
    var body1;
    status1, body1 := app.Register(form);
    if status1 == 201 {
      var user := app.users[|app.users| - 1];
      assert user in app.users;
      assert app.policy.check(user.passwordHash, form.password.value);
    }
    status2, body2 := app.Login(Credentials(form.email, form.password));
  }

  /** The second identical like is refused, and exactly one Like is stored for the pair. */
  method LikeTwice(app: Backend, playlistId: nat, videoId: nat, req: InteractionBody)
    returns (status1: int, status2: int)
    requires app.Valid()
    modifies app
    ensures app.Valid()
    ensures status1 == 201 ==>
              status2 == 400 && |app.likes| == |old(app.likes)| + 1
              && req.userId.Some? && req.videoId.Some?
              && |Filter(app.likes, KeyIs(LikePair, (req.userId.value, req.videoId.value)))| == 1
  {
    var body1, body2;
    status1, body1 := app.LikeVideo(playlistId, videoId, req);
    ghost var afterFirst := app.likes;
    status2, body2 := app.LikeVideo(playlistId, videoId, req);
    if status1 == 201 {
      var like := afterFirst[|afterFirst| - 1];
      assert like in app.likes && LikePair(like) == (req.userId.value, req.videoId.value);
      UniqueKeyCount(app.likes, LikePair, (req.userId.value, req.videoId.value));
    }
  }

  /** The second identical save is refused, and exactly one SavedVideo is stored for the pair. */
  method SaveTwice(app: Backend, videoId: nat, req: InteractionBody) returns (status1: int, status2: int)
    requires app.Valid()
    modifies app
    ensures app.Valid()
    ensures status1 == 201 ==>
              status2 == 400 && |app.saved| == |old(app.saved)| + 1
              && req.userId.Some? && |Filter(app.saved, KeyIs(SavedPair, (req.userId.value, videoId)))| == 1
  {
    var body1, body2;
    status1, body1 := app.SaveVideo(videoId, req);
    ghost var afterFirst := app.saved;
    status2, body2 := app.SaveVideo(videoId, req);
    if status1 == 201 {
      var record := afterFirst[|afterFirst| - 1];
      assert record in app.saved && SavedPair(record) == (req.userId.value, videoId);
      UniqueKeyCount(app.saved, SavedPair, (req.userId.value, videoId));
    }
  }

  /** A successful like raises the liking user's `likes_count` on the profile page by one. */
  method LikeRaisesProfileCounter(app: Backend, playlistId: nat, videoId: nat, req: InteractionBody)
    returns (before: Body, status: int, after: Body)
    requires app.Valid()
    requires req.userId.Some? && exists u :: u in app.users && u.id == req.userId.value
    modifies app
    ensures before.UserStats? && after.UserStats?
    ensures after.likesCount == before.likesCount + (if status == 201 then 1 else 0)
    ensures after.commentsCount == before.commentsCount && after.savedVideosCount == before.savedVideosCount
  {
    var s, body;
    var uid := req.userId.value;
    var u :| u in app.users && u.id == uid;
    s, before := app.GetUser(Some(uid));
    ghost var likesBefore := app.likes;
    status, body := app.LikeVideo(playlistId, videoId, req);
    if status == 201 {
      CountAppend(likesBefore, app.likes[|app.likes| - 1], KeyIs(LikeUser, uid));
      assert app.likes == likesBefore + [app.likes[|app.likes| - 1]];
    }
    assert u in app.users;
    s, after := app.GetUser(Some(uid));
  }

  /** After a teacher is deleted, fetching it answers 404. */
  method DeleteThenGet(app: Backend, id: nat) returns (status1: int, status2: int)
    requires app.Valid()
    modifies app
    ensures status2 == 404
    ensures status1 == 200 <==> exists t :: t in old(app.teachers) && t.id == id
  {
    var body1, body2;
    status1, body1 := app.DeleteTeacher(id);
    status2, body2 := app.GetTeacher(id);
  }

  /** Applying the same teacher update twice leaves the directory as one application did. */
  method UpdateTeacherTwice(app: Backend, id: nat, fields: TeacherFields, upload: Option<string>)
    returns (status1: int, status2: int, once: seq<Teacher>)
    requires app.Valid()
    modifies app
    ensures status1 == status2
    ensures app.teachers == once
  {
    var body1, body2;
    status1, body1 := app.UpdateTeacher(id, fields, upload);
    once := app.teachers;
    status2, body2 := app.UpdateTeacher(id, fields, upload);
  }
}
