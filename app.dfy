/**
 * The request handlers of the backend over an in-memory store with one
 * sequence per table, in storage order. Each handler validates its input in
 * the order the source does, picks a status code, and then either leaves the
 * store alone or adds, changes or deletes exactly one row.
 */
module App {
  import opened Options
  import opened Seqs
  import opened Text
  import opened Records
  import opened SearchFilters

  /** All four required registration fields are present and non-empty. */
  predicate AllFilled(form: RegisterForm)
  {
    Filled(form.username) && Filled(form.email) && Filled(form.password) && Filled(form.confirmPassword)
  }

  class Backend {
    /** How `set_password` hashes and `check_password` checks. */
    const policy: PasswordPolicy
    /** The configured upload directory. */
    const uploadFolder: string

    var users: seq<User>
    var playlists: seq<Playlist>
    var videos: seq<Video>
    var comments: seq<Comment>
    var likes: seq<Like>
    var saved: seq<SavedVideo>
    var teachers: seq<Teacher>

    /** User ids and emails are unique and every role is whitelisted. */
    ghost predicate UsersValid()
      reads this`users
    {
      UniqueKeys(users, UserId) && UniqueKeys(users, UserEmail) && forall u :: u in users ==> KnownRole(u.role)
    }

    /** Playlist and video ids are unique and every video belongs to a playlist. */
    ghost predicate CatalogValid()
      reads this`playlists, this`videos
    {
      && UniqueKeys(playlists, PlaylistId) && UniqueKeys(videos, VideoId)
      && forall v :: v in videos ==> exists p :: p in playlists && p.id == v.playlistId
    }

    /** Like ids are unique and no (user, video) pair is liked twice. */
    ghost predicate LikesValid()
      reads this`likes
    {
      UniqueKeys(likes, LikeId) && UniqueKeys(likes, LikePair)
    }

    /** SavedVideo ids are unique and no (user, video) pair is saved twice. */
    ghost predicate SavedValid()
      reads this`saved
    {
      UniqueKeys(saved, SavedId) && UniqueKeys(saved, SavedPair)
    }

    /** The store's integrity, table by table. */
    ghost predicate Valid()
      reads this
    {
      && UsersValid() && CatalogValid() && UniqueKeys(comments, CommentId)
      && LikesValid() && SavedValid() && UniqueKeys(teachers, TeacherId)
    }

    /** A store holding the given catalog and nothing else. */
    constructor (policy: PasswordPolicy, uploadFolder: string, playlists: seq<Playlist>, videos: seq<Video>)
      requires UniqueKeys(playlists, PlaylistId) && UniqueKeys(videos, VideoId)
      requires forall v :: v in videos ==> exists p :: p in playlists && p.id == v.playlistId
      ensures Valid()
      ensures this.policy == policy && this.uploadFolder == uploadFolder
      ensures this.playlists == playlists && this.videos == videos
      ensures users == [] && comments == [] && likes == [] && saved == [] && teachers == []
    {
      this.policy := policy;
      this.uploadFolder := uploadFolder;
      this.playlists := playlists;
      this.videos := videos;
      users, comments, likes, saved, teachers := [], [], [], [], [];
    }

    /** `Playlist.query.get(id)` finds a row. */
    predicate HasPlaylist(id: int)
      reads this`playlists
    {
      exists p :: p in playlists && p.id == id
    }

    /** `Video.query.get(id)` finds a row; an absent id finds none. */
    predicate HasVideo(id: Option<int>)
      reads this`videos
    {
      id.Some? && exists v :: v in videos && v.id == id.value
    }

    // ---------------------------------------------------------------- accounts

    /** `GET /profile?user_id=`: the user's profile with three counters. */
    method GetUser(userId: Option<int>) returns (status: int, body: Body)
      requires Valid()
      ensures userId.None? ==> status == 400 && body == Error("User ID is required")
      ensures userId.Some? && (forall u :: u in users ==> u.id != userId.value) ==>
                status == 404 && body == Error("User not found")
      ensures forall u :: u in users && userId == Some(u.id) ==>
                status == 200 &&
                body == UserStats(u.username, u.role, u.imgUrl,
                                  |Filter(comments, KeyIs(CommentUser, u.id))|,
                                  |Filter(likes, KeyIs(LikeUser, u.id))|,
                                  |Filter(saved, KeyIs(SavedUser, u.id))|)
    {
      if userId.None? {
        return 400, Error("User ID is required");
      }
      var found := IndexWhere(users, KeyIs(UserId, userId.value));
      if found.None? {
        return 404, Error("User not found");
      }
      var user := users[found.value];
      assert forall j :: 0 <= j < |users| && users[j].id == user.id ==> j == found.value;
      status := 200;
      body := UserStats(user.username, user.role, user.imgUrl,
                        |Filter(comments, KeyIs(CommentUser, user.id))|,
                        |Filter(likes, KeyIs(LikeUser, user.id))|,
                        |Filter(saved, KeyIs(SavedUser, user.id))|);
    }

    /**
     * `POST /register`. Rejections, in order: a missing field, a password
     * mismatch, a role outside the whitelist, an email already registered.
     */
    method Register(form: RegisterForm) returns (status: int, body: Body)
      requires Valid()
      modifies this`users
      ensures Valid()
      ensures status == 201 <==> users != old(users)
      ensures status != 201 ==> status == 400 && body.Error?
      ensures !AllFilled(form) ==> status == 400 && body == Error("All fields are required")
      ensures AllFilled(form) && form.password != form.confirmPassword ==>
                status == 400 && body == Error("Passwords do not match")
      ensures AllFilled(form) && form.password == form.confirmPassword && !KnownRole(RequestedRole(form)) ==>
                status == 400 && body == Error("Invalid user type")
      ensures AllFilled(form) && form.password == form.confirmPassword && KnownRole(RequestedRole(form))
              && (exists u :: u in old(users) && u.email == form.email.value) ==>
                status == 400 && body == Error("User already exists")
      ensures AllFilled(form) && form.password == form.confirmPassword && KnownRole(RequestedRole(form))
              && !(exists u :: u in old(users) && u.email == form.email.value) ==>
                status == 201 && body == Registered("User registered successfully", RequestedRole(form))
                && users == old(users) + [User(NextId(old(users), UserId), form.username.value, form.email.value,
                                               policy.hash(form.password.value), RequestedRole(form),
                                               ProfilePath(form.username.value, form.profile))]
    {
      if !AllFilled(form) {
        return 400, Error("All fields are required");
      }
      if form.password != form.confirmPassword {
        return 400, Error("Passwords do not match");
      }
      var role := RequestedRole(form);
      if !KnownRole(role) {
        return 400, Error("Invalid user type");
      }
      var email := form.email.value;
      if IndexWhere(users, KeyIs(UserEmail, email)).Some? {
        return 400, Error("User already exists");
      }
      var user := User(NextId(users, UserId), form.username.value, email, policy.hash(form.password.value),
                       role, ProfilePath(form.username.value, form.profile));
      AppendFresh(users, user, UserId);
      AppendFresh(users, user, UserEmail);
      users := users + [user];
      return 201, Registered("User registered successfully", user.role);
    }

    /**
     * `POST /login`: 400 without both credentials, 404 for an unknown email,
     * 401 when the password check fails, otherwise 200 with the user's
     * identity. The stored hash is never part of the answer.
     */
    method Login(creds: Credentials) returns (status: int, body: Body)
      requires Valid()
      ensures !(Filled(creds.email) && Filled(creds.pass)) ==>
                status == 400 && body == Error("Email and password are required")
      ensures Filled(creds.email) && Filled(creds.pass) && (forall u :: u in users ==> u.email != creds.email.value) ==>
                status == 404 && body == Message("User does not exist")
      ensures forall u :: u in users && Filled(creds.email) && Filled(creds.pass) && u.email == creds.email.value ==>
                if policy.check(u.passwordHash, creds.pass.value) then
                  status == 200 && body == LoggedIn("Welcome, " + u.username + "!", u.id, u.username, u.imgUrl, u.role)
                else
                  status == 401 && body == Message("Invalid email or password")
    {
      if !(Filled(creds.email) && Filled(creds.pass)) {
        return 400, Error("Email and password are required");
      }
      var found := IndexWhere(users, KeyIs(UserEmail, creds.email.value));
      if found.None? {
        return 404, Message("User does not exist");
      }
      var user := users[found.value];
      assert forall j :: 0 <= j < |users| && users[j].email == user.email ==> j == found.value;
      if policy.check(user.passwordHash, creds.pass.value) {
        return 200, LoggedIn("Welcome, " + user.username + "!", user.id, user.username, user.imgUrl, user.role);
      }
      return 401, Message("Invalid email or password");
    }

    /** `GET /profile/<id>`: username, email and role, or 404. */
    method GetUserProfile(userId: nat) returns (status: int, body: Body)
      requires Valid()
      ensures (forall u :: u in users ==> u.id != userId) ==> status == 404 && body == Error("User not found")
      ensures forall u :: u in users && u.id == userId ==>
                status == 200 && body == ProfileView(u.username, u.email, u.role)
    {
      var found := IndexWhere(users, KeyIs(UserId, userId));
      if found.None? {
        return 404, Error("User not found");
      }
      var user := users[found.value];
      assert forall j :: 0 <= j < |users| && users[j].id == userId ==> j == found.value;
      return 200, ProfileView(user.username, user.email, user.role);
    }

    // ----------------------------------------------------------------- catalog

    /** `GET /courses`: every playlist, in storage order. */
    method Courses() returns (status: int, body: Body)
      ensures status == 200 && body == PlaylistList(playlists)
    {
      return 200, PlaylistList(playlists);
    }

    /** `GET /courses/<playlist_id>`: the playlist's videos, in storage order. */
    method PlaylistVideos(playlistId: nat) returns (status: int, body: Body)
      ensures status == 200
      ensures !HasPlaylist(playlistId) ==> body == Message(" No playlist found")
      ensures HasPlaylist(playlistId) ==>
                body == VideoList(Filter(videos, KeyIs(VideoPlaylist, playlistId)))
                && forall v :: v in body.videos <==> v in videos && v.playlistId == playlistId
    {
      if !HasPlaylist(playlistId) {
        return 200, Message(" No playlist found");
      }
      FilterMembers(videos, KeyIs(VideoPlaylist, playlistId));
      return 200, VideoList(Filter(videos, KeyIs(VideoPlaylist, playlistId)));
    }

    /**
     * `GET /search?q=`: an empty query is refused with 404; otherwise the
     * users, videos and playlists that match, each in storage order.
     */
    method Search(q: string) returns (status: int, body: Body)
      ensures q == "" ==> status == 404 && body == Message("Please provide a search term.")
      ensures q != "" ==>
                status == 200 &&
                body == SearchResults(MatchingUsers(users, q), MatchingVideos(videos, q), MatchingPlaylists(playlists, q))
      ensures q != "" ==> forall u :: u in body.users <==> u in users && UserMatches(q, u)
      ensures q != "" ==> forall v :: v in body.videos <==> v in videos && VideoMatches(q, v)
      ensures q != "" ==> forall p :: p in body.playlists <==> p in playlists && PlaylistMatches(q, p)
    {
      if q == "" {
        return 404, Message("Please provide a search term.");
      }
      return 200, SearchResults(MatchingUsers(users, q), MatchingVideos(videos, q), MatchingPlaylists(playlists, q));
    }

    /**
     * `GET /courses/<playlist_id>/<video_id>`: 400 for an unknown playlist,
     * 404 unless the video exists in THAT playlist; a returned video always
     * belongs to the requested playlist.
     */
    method GetVideo(playlistId: nat, videoId: nat) returns (status: int, body: Body)
      requires Valid()
      ensures !HasPlaylist(playlistId) ==> status == 400 && body == Error("Playlist not found")
      ensures HasPlaylist(playlistId) && !(exists v :: v in videos && v.id == videoId && v.playlistId == playlistId) ==>
                status == 404 && body == Error("Video not found in this playlist")
      ensures status == 200 ==>
                body.VideoView? && body.playlist in playlists && body.video in videos
                && body.playlist.id == playlistId && body.video.id == videoId && body.video.playlistId == playlistId
      ensures forall p, v :: p in playlists && p.id == playlistId && v in videos && v.id == videoId && v.playlistId == playlistId ==>
                status == 200 && body == VideoView(p, v)
    {
      var pi := IndexWhere(playlists, KeyIs(PlaylistId, playlistId));
      if pi.None? {
        return 400, Error("Playlist not found");
      }
      var vi := IndexWhere(videos, KeyIs(VideoSlot, (videoId, playlistId)));
      if vi.None? {
        return 404, Error("Video not found in this playlist");
      }
      var playlist, video := playlists[pi.value], videos[vi.value];
      assert forall j :: 0 <= j < |playlists| && playlists[j].id == playlistId ==> j == pi.value;
      assert forall j :: 0 <= j < |videos| && videos[j].id == videoId ==> j == vi.value;
      return 200, VideoView(playlist, video);
    }

    // ------------------------------------------------------------ interactions

    /**
     * `POST /courses/<playlist_id>/<video_id>/comment`. The video is the one
     * named in the body; `pathVideoId` is ignored, as in the source. A missing
     * user id yields an error body with the default status 200.
     */
    method AddComment(playlistId: nat, pathVideoId: nat, req: InteractionBody) returns (status: int, body: Body)
      requires Valid()
      modifies this`comments
      ensures Valid()
      ensures status == 201 <==> comments != old(comments)
      ensures !HasPlaylist(playlistId) ==> status == 400 && body == Error("Playlist not found")
      ensures HasPlaylist(playlistId) && !Truthy(req.userId) ==> status == 200 && body == Error(" user ID require")
      ensures HasPlaylist(playlistId) && Truthy(req.userId) && !HasVideo(req.videoId) ==>
                status == 404 && body == Error("Video not found")
      ensures HasPlaylist(playlistId) && Truthy(req.userId) && HasVideo(req.videoId) ==>
                status == 201 && body == Message("Comment added successfully!")
                && comments == old(comments) + [Comment(NextId(old(comments), CommentId), req.text,
                                                        req.userId.value, req.videoId.value)]
    {
      if !HasPlaylist(playlistId) {
        return 400, Error("Playlist not found");
      }
      if !Truthy(req.userId) {
        return 200, Error(" user ID require");
      }
      if !HasVideo(req.videoId) {
        return 404, Error("Video not found");
      }
      var comment := Comment(NextId(comments, CommentId), req.text, req.userId.value, req.videoId.value);
      AppendFresh(comments, comment, CommentId);
      comments := comments + [comment];
      return 201, Message("Comment added successfully!");
    }

    /**
     * `POST /courses/<playlist_id>/<video_id>/like`: the checks of AddComment,
     * then 400 if the user already liked the video; otherwise one Like is
     * added, so no (user, video) pair is ever stored twice.
     */
    method LikeVideo(playlistId: nat, pathVideoId: nat, req: InteractionBody) returns (status: int, body: Body)
      requires Valid()
      modifies this`likes
      ensures Valid()
      ensures status == 201 <==> likes != old(likes)
      ensures !HasPlaylist(playlistId) ==> status == 400 && body == Error("Playlist not found")
      ensures HasPlaylist(playlistId) && !Truthy(req.userId) ==> status == 200 && body == Error(" user ID require")
      ensures HasPlaylist(playlistId) && Truthy(req.userId) && !HasVideo(req.videoId) ==>
                status == 404 && body == Error("Video not found")
      ensures HasPlaylist(playlistId) && Truthy(req.userId) && HasVideo(req.videoId)
              && (exists l :: l in old(likes) && l.userId == req.userId.value && l.videoId == req.videoId.value) ==>
                status == 400 && body == Error("You already liked this video")
      ensures HasPlaylist(playlistId) && Truthy(req.userId) && HasVideo(req.videoId)
              && !(exists l :: l in old(likes) && l.userId == req.userId.value && l.videoId == req.videoId.value) ==>
                status == 201 && body == Message("Video liked successfully!")
                && likes == old(likes) + [Like(NextId(old(likes), LikeId), req.userId.value, req.videoId.value)]
    {
      if !HasPlaylist(playlistId) {
        return 400, Error("Playlist not found");
      }
      if !Truthy(req.userId) {
        return 200, Error(" user ID require");
      }
      if !HasVideo(req.videoId) {
        return 404, Error("Video not found");
      }
      var userId, videoId := req.userId.value, req.videoId.value;
      if IndexWhere(likes, KeyIs(LikePair, (userId, videoId))).Some? {
        return 400, Error("You already liked this video");
      }
      var like := Like(NextId(likes, LikeId), userId, videoId);
      AppendFresh(likes, like, LikeId);
      AppendFresh(likes, like, LikePair);
      likes := likes + [like];
      return 201, Message("Video liked successfully!");
    }

    /**
     * `POST /courses/<playlist_id>/<video_id>/save`. The source's handler takes
     * only the video id (the playlist id of the route is not a parameter of
     * it); 400 without a user id, 404 for an unknown video, 400 if already
     * saved, otherwise one SavedVideo is added.
     */
    method SaveVideo(videoId: nat, req: InteractionBody) returns (status: int, body: Body)
      requires Valid()
      modifies this`saved
      ensures Valid()
      ensures status == 201 <==> saved != old(saved)
      ensures !Truthy(req.userId) ==> status == 400 && body == Error("User ID is required")
      ensures Truthy(req.userId) && !HasVideo(Some(videoId)) ==> status == 404 && body == Error("Video not found")
      ensures Truthy(req.userId) && HasVideo(Some(videoId))
              && (exists s :: s in old(saved) && s.userId == req.userId.value && s.videoId == videoId) ==>
                status == 400 && body == Error("You already saved this video")
      ensures Truthy(req.userId) && HasVideo(Some(videoId))
              && !(exists s :: s in old(saved) && s.userId == req.userId.value && s.videoId == videoId) ==>
                status == 201 && body == Message("Video saved successfully!")
                && saved == old(saved) + [SavedVideo(NextId(old(saved), SavedId), req.userId.value, videoId)]
    {
      if !Truthy(req.userId) {
        return 400, Error("User ID is required");
      }
      if !HasVideo(Some(videoId)) {
        return 404, Error("Video not found");
      }
      var userId := req.userId.value;
      if IndexWhere(saved, KeyIs(SavedPair, (userId, videoId))).Some? {
        return 400, Error("You already saved this video");
      }
      var record := SavedVideo(NextId(saved, SavedId), userId, videoId);
      AppendFresh(saved, record, SavedId);
      AppendFresh(saved, record, SavedPair);
      saved := saved + [record];
      return 201, Message("Video saved successfully!");
    }

    // -------------------------------------------------------- teacher directory

    /** Where an uploaded teacher image is stored: `<upload folder>/teacher_<tag>_<file>`. */
    function TeacherImage(tag: string, file: string): (path: string)
      ensures |path| >= |uploadFolder| + |tag| + |file| + 9
      ensures path[..|uploadFolder|] == uploadFolder
      ensures |path| <= |uploadFolder| + |tag| + |file| + 10
      ensures path[|path| - (|tag| + |file| + 9)..] == "teacher_" + tag + "_" + file
    {
      JoinPath(uploadFolder, "teacher_" + tag + "_" + file)
    }

    /**
     * `POST /teachers`: name and email are required (400) and the email must
     * not belong to another teacher (409); otherwise one teacher is added.
     */
    method CreateTeacher(fields: TeacherFields, upload: Option<string>) returns (status: int, body: Body)
      requires Valid()
      modifies this`teachers
      ensures Valid()
      ensures status == 201 <==> teachers != old(teachers)
      ensures !(Filled(fields.name) && Filled(fields.email)) ==>
                status == 400 && body == Error("Name and email are required")
      ensures Filled(fields.name) && Filled(fields.email) && (exists t :: t in old(teachers) && t.email == fields.email.value) ==>
                status == 409 && body == Error("Email already exists")
      ensures Filled(fields.name) && Filled(fields.email) && !(exists t :: t in old(teachers) && t.email == fields.email.value) ==>
                status == 201 && body == Message("Teacher created successfully")
                && teachers == old(teachers) + [Teacher(NextId(old(teachers), TeacherId), fields.name.value, fields.email.value,
                                                        fields.bio, fields.subject,
                                                        if upload.Some? then Some(TeacherImage(fields.email.value, upload.value)) else None)]
      ensures UniqueKeys(old(teachers), TeacherEmail) ==> UniqueKeys(teachers, TeacherEmail)
    {
      if !(Filled(fields.name) && Filled(fields.email)) {
        return 400, Error("Name and email are required");
      }
      var email := fields.email.value;
      if IndexWhere(teachers, KeyIs(TeacherEmail, email)).Some? {
        return 409, Error("Email already exists");
      }
      var img := if upload.Some? then Some(TeacherImage(email, upload.value)) else None;
      var teacher := Teacher(NextId(teachers, TeacherId), fields.name.value, email, fields.bio, fields.subject, img);
      AppendFresh(teachers, teacher, TeacherId);
      if UniqueKeys(teachers, TeacherEmail) {
        AppendFresh(teachers, teacher, TeacherEmail);
      }
      teachers := teachers + [teacher];
      return 201, Message("Teacher created successfully");
    }

    /** `GET /teachers`: every teacher, in storage order. */
    method GetTeachers() returns (status: int, body: Body)
      ensures status == 200 && body == TeacherList(teachers)
    {
      return 200, TeacherList(teachers);
    }

    /** `GET /teachers/<id>`: the teacher with that id, or 404. */
    method GetTeacher(id: nat) returns (status: int, body: Body)
      requires Valid()
      ensures (forall t :: t in teachers ==> t.id != id) ==> status == 404 && body == Message("Teacher not found")
      ensures forall t :: t in teachers && t.id == id ==> status == 200 && body == TeacherView(t)
    {
      var found := IndexWhere(teachers, KeyIs(TeacherId, id));
      if found.None? {
        return 404, Message("Teacher not found");
      }
      assert forall j :: 0 <= j < |teachers| && teachers[j].id == id ==> j == found.value;
      return 200, TeacherView(teachers[found.value]);
    }

    /**
     * `PATCH /teachers/<id>`: 404 for an unknown id; otherwise each of name,
     * email, bio and subject takes the body's value when the key is present
     * and keeps its old value when it is absent, an uploaded image replaces the
     * image reference, and no other teacher changes.
     */
    method UpdateTeacher(id: nat, fields: TeacherFields, upload: Option<string>) returns (status: int, body: Body)
      requires Valid()
      modifies this`teachers
      ensures Valid()
      ensures |teachers| == |old(teachers)|
      ensures (forall t :: t in old(teachers) ==> t.id != id) ==>
                status == 404 && body == Error("Teacher not found") && teachers == old(teachers)
      ensures (exists t :: t in old(teachers) && t.id == id) ==>
                status == 200 && body == Message("Teacher updated successfully")
      ensures forall i :: 0 <= i < |teachers| && old(teachers)[i].id != id ==> teachers[i] == old(teachers)[i]
      ensures forall i :: 0 <= i < |teachers| && old(teachers)[i].id == id ==>
                var was := old(teachers)[i];
                && teachers[i].id == id
                && teachers[i].name == GetOr(fields.name, was.name)
                && teachers[i].email == GetOr(fields.email, was.email)
                && teachers[i].bio == (if fields.bio.Some? then fields.bio else was.bio)
                && teachers[i].subject == (if fields.subject.Some? then fields.subject else was.subject)
                && teachers[i].imgUrl == (if upload.Some? then Some(TeacherImage(IntText(id), upload.value)) else was.imgUrl)
    {
      var found := IndexWhere(teachers, KeyIs(TeacherId, id));
      if found.None? {
        return 404, Error("Teacher not found");
      }
      var i := found.value;
      var t := teachers[i];
      var changed := t.(name := GetOr(fields.name, t.name),
                        email := GetOr(fields.email, t.email),
                        bio := if fields.bio.Some? then fields.bio else t.bio,
                        subject := if fields.subject.Some? then fields.subject else t.subject);
      if upload.Some? {
        changed := changed.(imgUrl := Some(TeacherImage(IntText(id), upload.value)));
      }
      assert forall j :: 0 <= j < |teachers| && teachers[j].id == id ==> j == i;
      ReplaceUnique(teachers, i, changed, TeacherId);
      teachers := teachers[i := changed];
      return 200, Message("Teacher updated successfully");
    }

    /** `DELETE /teachers/<id>`: 404 for an unknown id; otherwise that one teacher is removed. */
    method DeleteTeacher(id: nat) returns (status: int, body: Body)
      requires Valid()
      modifies this`teachers
      ensures Valid()
      ensures (forall t :: t in old(teachers) ==> t.id != id) ==>
                status == 404 && body == Error("Teacher not found") && teachers == old(teachers)
      ensures (exists t :: t in old(teachers) && t.id == id) ==>
                status == 200 && body == Message("Teacher deleted successfully")
                && (exists i :: 0 <= i < |old(teachers)| && old(teachers)[i].id == id
                                && teachers == old(teachers)[..i] + old(teachers)[i + 1..])
                && (forall t :: t in teachers ==> t.id != id)
                && (forall t :: t in old(teachers) && t.id != id ==> t in teachers)
    {
      var found := IndexWhere(teachers, KeyIs(TeacherId, id));
      if found.None? {
        return 404, Error("Teacher not found");
      }
      var i := found.value;
      RemoveUnique(teachers, i, TeacherId);
      teachers := teachers[..i] + teachers[i + 1..];
      return 200, Message("Teacher deleted successfully");
    }
  }
}
