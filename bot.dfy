/** The Telegram bot of bot/bot.js: the `message` handler (account verification
    by code, then indexing of a photo, document or video as a File record) and
    the `/start` handler (upsert of a User by Telegram id). Polling and the
    `sendMessage` replies are not part of this model. */
module Bot {
  import opened Records
  import opened Storage

  datatype Document = Document(fileId: string, fileName: Option<string>, mimeType: Option<string>)

  /** `thumbFileId` is `video.thumb?.file_id`. */
  datatype Video = Video(fileId: string, thumbFileId: Option<string>, fileName: Option<string>, mimeType: Option<string>)

  /** The parts of a Telegram message the handlers read. `photo` lists the
      `file_id` of each size, smallest first. */
  datatype Message = Message(
    senderId: int,
    senderUsername: Option<string>,
    messageId: int,
    text: Option<string>,
    photo: Option<seq<string>>,
    document: Option<Document>,
    video: Option<Video>)

  // ---------------------------------------------------------------------------
  // String.prototype.trim

  /** The characters `trim` removes: ECMAScript WhiteSpace and LineTerminator. */
  predicate IsJsSpace(c: char) {
    || c == '\t' || c == '\n' || c == '\U{B}' || c == '\U{C}' || c == '\r' || c == ' '
    || c == '\U{A0}' || c == '\U{1680}' || ('\U{2000}' <= c <= '\U{200A}')
    || c == '\U{2028}' || c == '\U{2029}' || c == '\U{202F}' || c == '\U{205F}'
    || c == '\U{3000}' || c == '\U{FEFF}'
  }

  /** `s` without its leading white space: a suffix of `s`. */
  function TrimStart(s: string): (r: string)
    ensures |r| <= |s| && r == s[|s| - |r|..]
    ensures forall i :: 0 <= i < |s| - |r| ==> IsJsSpace(s[i])
    ensures r != [] ==> !IsJsSpace(r[0])
  {
    if s != [] && IsJsSpace(s[0]) then TrimStart(s[1..]) else s
  }

  /** `s` without its trailing white space: a prefix of `s`. */
  function TrimEnd(s: string): (r: string)
    ensures |r| <= |s| && r == s[..|r|]
    ensures forall i :: |r| <= i < |s| ==> IsJsSpace(s[i])
    ensures r != [] ==> !IsJsSpace(r[|r| - 1])
  {
    if s != [] && IsJsSpace(s[|s| - 1]) then TrimEnd(s[..|s| - 1]) else s
  }

  /** How many characters `trim` cuts from the front of `s`. */
  function Lead(s: string): nat {
    |s| - |TrimStart(s)|
  }

  /** `s.trim()`: the middle of `s`, neither starting nor ending with white
      space, with only white space cut away on either side. */
  function Trim(s: string): (r: string)
    ensures r != [] ==> !IsJsSpace(r[0]) && !IsJsSpace(r[|r| - 1])
    ensures Lead(s) + |r| <= |s| && r == s[Lead(s)..Lead(s) + |r|]
    ensures forall i :: 0 <= i < Lead(s) ==> IsJsSpace(s[i])
    ensures forall i :: Lead(s) + |r| <= i < |s| ==> IsJsSpace(s[i])
  {
    TrimEnd(TrimStart(s))
  }

  /** Trimming a string that has no white space at either end leaves it alone. */
  lemma TrimClean(s: string)
    requires s != [] ==> !IsJsSpace(s[0]) && !IsJsSpace(s[|s| - 1])
    ensures Trim(s) == s
  {
  }

  /** Trimming twice is trimming once. */
  lemma TrimIdempotent(s: string)
    ensures Trim(Trim(s)) == Trim(s)
  {
    TrimClean(Trim(s));
  }

  // ---------------------------------------------------------------------------
  // The User collection: findOne and the two updates the bot makes

  /** The filters the bot passes to `User.findOne` / `findOneAndUpdate`. */
  datatype UserQuery =
    | ByTelegramId(telegramId: int)
    | AwaitingCode(code: string)   // `{ telegramVerifyCode: code, telegramVerified: false }`

  predicate Matches(u: User, q: UserQuery) {
    match q
    case ByTelegramId(t) => u.telegramId == Some(t)
    case AwaitingCode(code) => u.telegramVerifyCode == Some(code) && !u.telegramVerified
  }

  /** `findOne`: the first matching user in natural order, if any. */
  function FindOne(users: seq<User>, q: UserQuery): (r: Option<nat>)
    ensures r.Some? ==> r.value < |users| && Matches(users[r.value], q)
    ensures r.Some? ==> forall j :: 0 <= j < r.value ==> !Matches(users[j], q)
    ensures r.None? ==> forall j :: 0 <= j < |users| ==> !Matches(users[j], q)
  {
    if users == [] then None
    else if Matches(users[0], q) then Some(0)
    else match FindOne(users[1..], q)
      case None => None
      case Some(i) => Some(i + 1)
  }

  /** The first match is the only index that matches with no match before it. */
  lemma FindOneIs(users: seq<User>, q: UserQuery, i: nat)
    requires i < |users| && Matches(users[i], q)
    requires forall j :: 0 <= j < i ==> !Matches(users[j], q)
    ensures FindOne(users, q) == Some(i)
  {
    var r := FindOne(users, q);
    assert r.Some?;
    assert !(r.value < i) && !(i < r.value);
  }

  /** How many users match `q`. */
  function Count(users: seq<User>, q: UserQuery): nat {
    if users == [] then 0 else (if Matches(users[0], q) then 1 else 0) + Count(users[1..], q)
  }

  lemma {:induction false} CountNone(users: seq<User>, q: UserQuery)
    ensures Count(users, q) == 0 <==> FindOne(users, q).None?
  {
    if users != [] {
      CountNone(users[1..], q);
    }
  }

  lemma {:induction false} CountAppend(users: seq<User>, u: User, q: UserQuery)
    ensures Count(users + [u], q) == Count(users, q) + (if Matches(u, q) then 1 else 0)
  {
    if users == [] {
      assert users + [u] == [u];
    } else {
      assert (users + [u])[1..] == users[1..] + [u];
      CountAppend(users[1..], u, q);
    }
  }

  lemma {:induction false} CountUpdate(users: seq<User>, i: nat, u: User, q: UserQuery)
    requires i < |users|
    ensures Count(users[i := u], q) ==
      Count(users, q) - (if Matches(users[i], q) then 1 else 0) + (if Matches(u, q) then 1 else 0)
  {
    if i > 0 {
      assert users[i := u][1..] == users[1..][i - 1 := u];
      CountUpdate(users[1..], i - 1, u, q);
    }
  }

  /** The verification step: the first user still waiting for `code` gets the
      sender's Telegram id, becomes verified and loses the code; no one else
      changes. Usernames are untouched. */
  function Verify(users: seq<User>, code: string, sender: int): (result: (seq<User>, Option<nat>))
    ensures result.1 == FindOne(users, AwaitingCode(code))
    ensures |result.0| == |users|
    ensures forall j :: 0 <= j < |users| ==> result.0[j].username == users[j].username
    ensures forall j :: 0 <= j < |users| && result.1 != Some(j) ==> result.0[j] == users[j]
    ensures result.1.Some? ==>
      var u := result.0[result.1.value];
      u.telegramId == Some(sender) && u.telegramVerified && u.telegramVerifyCode.None?
  {
    match FindOne(users, AwaitingCode(code))
    case None => (users, None)
    case Some(i) =>
      var u := users[i];
      (users[i := u.(telegramId := Some(sender), telegramVerified := true, telegramVerifyCode := None)], Some(i))
  }

  /** A code serves once: after a user is verified with it, the same code no
      longer finds that user. */
  lemma VerifyConsumesCode(users: seq<User>, code: string, sender: int)
    requires Verify(users, code, sender).1.Some?
    ensures FindOne(Verify(users, code, sender).0, AwaitingCode(code)) != Verify(users, code, sender).1
  {
  }

  /** How `/start` ended: the first user with the Telegram id updated, a new user
      inserted, or the write refused by the unique index on `username`. */
  datatype StartOutcome = Updated(index: nat) | Inserted | DuplicateUsername

  /** Whether a user other than the one at `except` already has `username`. */
  predicate UsernameTaken(users: seq<User>, username: string, except: nat) {
    exists j :: 0 <= j < |users| && j != except && users[j].username == username
  }

  /** `User.findOneAndUpdate({telegramId}, {telegramId, username}, {upsert: true})`.
      The write is refused exactly when a user other than the one it would
      write already has the username; a refused write changes nothing. An
      accepted write either sets the id and username of the first user with
      the Telegram id, leaving every other user alone, or, when there is no
      such user, appends one with the schema's defaults on insert (not
      verified, no code). */
  function StartUpsert(users: seq<User>, telegramId: int, username: string): (result: (seq<User>, StartOutcome))
    ensures var found := FindOne(users, ByTelegramId(telegramId));
      result.1 == DuplicateUsername <==>
        UsernameTaken(users, username, if found.Some? then found.value else |users|)
    ensures result.1 == DuplicateUsername ==> result.0 == users
    ensures result.1.Updated? ==>
      var i := result.1.index;
      && FindOne(users, ByTelegramId(telegramId)) == Some(i)
      && |result.0| == |users|
      && result.0[i] == users[i].(telegramId := Some(telegramId), username := username)
      && forall j :: 0 <= j < |users| && j != i ==> result.0[j] == users[j]
    ensures result.1 == Inserted ==>
      && FindOne(users, ByTelegramId(telegramId)).None?
      && result.0 == users + [User(username, Some(telegramId), false, None)]
  {
    match FindOne(users, ByTelegramId(telegramId))
    case Some(i) =>
      if UsernameTaken(users, username, i) then (users, DuplicateUsername)
      else (users[i := users[i].(telegramId := Some(telegramId), username := username)], Updated(i))
    case None =>
      if UsernameTaken(users, username, |users|) then (users, DuplicateUsername)
      else (users + [User(username, Some(telegramId), false, None)], Inserted)
  }

  /** A `/start` that is not refused leaves the sender's Telegram id on a user
      with the given username (the one `findOne` now finds), creates a user with
      it only when there was none, and never adds a second. */
  lemma StartLinksAccount(users: seq<User>, telegramId: int, username: string)
    ensures var (after, outcome) := StartUpsert(users, telegramId, username);
      var q := ByTelegramId(telegramId);
      outcome != DuplicateUsername ==>
        && FindOne(after, q).Some?
        && after[FindOne(after, q).value].username == username
        && Count(after, q) == (if Count(users, q) == 0 then 1 else Count(users, q))
  {
    var q := ByTelegramId(telegramId);
    var (after, outcome) := StartUpsert(users, telegramId, username);
    CountNone(users, q);
    match FindOne(users, q)
    case Some(i) =>
      if outcome != DuplicateUsername {
        FindOneIs(after, q, i);
        CountUpdate(users, i, after[i], q);
      }
    case None =>
      if outcome != DuplicateUsername {
        FindOneIs(after, q, |users|);
        CountAppend(users, after[|users|], q);
      }
  }

  /** Repeating `/start` changes nothing more. */
  lemma StartIdempotent(users: seq<User>, telegramId: int, username: string)
    ensures var after := StartUpsert(users, telegramId, username).0;
      StartUpsert(after, telegramId, username).0 == after
  {
    var q := ByTelegramId(telegramId);
    var (after, outcome) := StartUpsert(users, telegramId, username);
    match FindOne(users, q)
    case Some(i) =>
      if outcome != DuplicateUsername {
        FindOneIs(after, q, i);
        assert !UsernameTaken(after, username, i);
      }
    case None =>
      if outcome != DuplicateUsername {
        FindOneIs(after, q, |users|);
        assert !UsernameTaken(after, username, |users|);
        assert after[|users| := after[|users|]] == after;
      }
  }

  /** `/start` keeps usernames unique. */
  lemma StartKeepsUniqueUsernames(users: seq<User>, telegramId: int, username: string)
    requires UniqueUsernames(users)
    ensures UniqueUsernames(StartUpsert(users, telegramId, username).0)
  {
  }

  // ---------------------------------------------------------------------------
  // Media classification

  datatype Classified =
    | NoMedia     // none of document, photo, video: the handler returns
    | Malformed   // an empty photo array: `msg.photo[0].file_id` throws
    | Media(fileId: string, thumbFileId: Option<string>, fileType: string,
            fileName: Option<string>, mimeType: Option<string>)

  /** What the three `if` branches leave in the `let` variables: the last branch
      that ran (video over document over photo) sets the type, file id, name and
      MIME type; the thumbnail is set only by the photo and video branches. */
  predicate ClassifiedAs(msg: Message, c: Classified) {
    && c.Media?
    && (if msg.video.Some? then
          var v := msg.video.value;
          && c.fileType == "video" && c.fileId == v.fileId
          && c.fileName == Some(OrElse(v.fileName, "video.mp4")) && c.mimeType == v.mimeType
          && c.thumbFileId == OrNull(v.thumbFileId)
        else if msg.document.Some? then
          var d := msg.document.value;
          && c.fileType == "document" && c.fileId == d.fileId
          && c.fileName == d.fileName && c.mimeType == d.mimeType
          && c.thumbFileId == (if msg.photo.Some? && |msg.photo.value| > 0 then Some(msg.photo.value[0]) else None)
        else
          && msg.photo.Some? && |msg.photo.value| > 0
          && c.fileType == "photo" && c.fileId == msg.photo.value[|msg.photo.value| - 1]
          && c.thumbFileId == Some(msg.photo.value[0])
          && c.fileName == Some("photo.jpg") && c.mimeType == Some("image/jpeg"))
  }

  /** The file-handling part of the `message` handler up to `File.create`. */
  method Classify(msg: Message) returns (c: Classified)
    ensures c.NoMedia? <==> msg.document.None? && msg.photo.None? && msg.video.None?
    ensures c.Malformed? <==> msg.photo == Some([])
    ensures c.Media? ==> ClassifiedAs(msg, c)
  {
    if msg.document.None? && msg.photo.None? && msg.video.None? {
      return NoMedia;
    }
    var fileId: string := "";
    var thumbFileId: Option<string> := None;
    var fileType: string := "";
    var fileName: Option<string> := None;
    var mimeType: Option<string> := None;

    if msg.photo.Some? {
      var sizes := msg.photo.value;
      if |sizes| == 0 {
        return Malformed;
      }
      fileType := "photo";
      thumbFileId := Some(sizes[0]);
      fileId := sizes[|sizes| - 1];
      fileName := Some("photo.jpg");
      mimeType := Some("image/jpeg");
    }

    if msg.document.Some? {
      var d := msg.document.value;
      fileType := "document";
      fileId := d.fileId;
      fileName := d.fileName;
      mimeType := d.mimeType;
    }

    if msg.video.Some? {
      var v := msg.video.value;
      fileType := "video";
      fileId := v.fileId;
      thumbFileId := OrNull(v.thumbFileId);
      fileName := Some(OrElse(v.fileName, "video.mp4"));
      mimeType := v.mimeType;
    }

    c := Media(fileId, thumbFileId, fileType, fileName, mimeType);
  }

  // ---------------------------------------------------------------------------
  // The handlers

  datatype MessageOutcome =
    | Verified(user: nat)   // a waiting account was linked; nothing is indexed
    | Ignored               // no media
    | Failed                // the handler threw before creating a record
    | Indexed(file: Id)     // one File record was created

  /** What the verification step does with a message: it runs only for a
      non-empty text, matched after trimming. */
  function Verification(users: seq<User>, msg: Message): (seq<User>, Option<nat>) {
    if Truthy(msg.text) then Verify(users, Trim(msg.text.value), msg.senderId) else (users, None)
  }

  /** The `message` handler. `newId` is the id the database gives a new record. */
  method OnMessage(db: Store, msg: Message, newId: Id) returns (outcome: MessageOutcome)
    requires db.Valid() && newId !in db.files
    modifies db`users, db`files
    ensures db.Valid()
    ensures outcome.Verified? <==> Verification(old(db.users), msg).1.Some?
    ensures outcome.Verified? ==>
      && Verification(old(db.users), msg) == (db.users, Some(outcome.user))
      && db.files == old(db.files)
    ensures !outcome.Verified? ==> db.users == old(db.users)
    ensures outcome == Ignored <==> !outcome.Verified? && msg.document.None? && msg.photo.None? && msg.video.None?
    ensures outcome == Failed <==> !outcome.Verified? && msg.photo == Some([])
    ensures !outcome.Indexed? ==> db.files == old(db.files)
    ensures outcome.Indexed? ==>
      && outcome.file == newId
      && newId in db.files
      && db.files == old(db.files)[newId := db.files[newId]]
      && var r := db.files[newId];
         && r.telegramId == msg.senderId && r.messageId == msg.messageId && r.folderId.None?
         && ClassifiedAs(msg, Media(r.fileId, r.thumbFileId, r.fileType, r.fileName, r.mimeType))
  {
    if Truthy(msg.text) {
      var (after, verified) := Verify(db.users, Trim(msg.text.value), msg.senderId);
      if verified.Some? {
        assert UniqueUsernames(after);
        db.users := after;
        return Verified(verified.value);
      }
    }
    var c := Classify(msg);
    match c {
      case NoMedia =>
        return Ignored;
      case Malformed =>
        return Failed;
      case Media(fileId, thumbFileId, fileType, fileName, mimeType) =>
        var r := FileRecord(msg.senderId, msg.messageId, fileId, thumbFileId, fileType, fileName, mimeType, None);
        db.files := db.files[newId := r];
        return Indexed(newId);
    }
  }

  /** Whether `text` contains `pattern` (an unanchored regular-expression test of
      a literal). */
  predicate Contains(text: string, pattern: string)
    decreases |text|
  {
    if |text| < |pattern| then false
    else if text[..|pattern|] == pattern then true
    else text != [] && Contains(text[1..], pattern)
  }

  /** The `/start` handler: `bot.onText(/\/start/, …)` fires for any text that
      contains "/start". */
  method OnStart(db: Store, msg: Message) returns (outcome: Option<StartOutcome>)
    requires db.Valid()
    modifies db`users
    ensures db.Valid()
    ensures outcome.Some? <==> msg.text.Some? && Contains(msg.text.value, "/start")
    ensures outcome.None? ==> db.users == old(db.users)
    ensures outcome.Some? ==>
      (db.users, outcome.value) == StartUpsert(old(db.users), msg.senderId, OrElse(msg.senderUsername, "no_username"))
  {
    if msg.text.None? || !Contains(msg.text.value, "/start") {
      return None;
    }
    var username := OrElse(msg.senderUsername, "no_username");
    var (after, result) := StartUpsert(db.users, msg.senderId, username);
    StartKeepsUniqueUsernames(db.users, msg.senderId, username);
    db.users := after;
    outcome := Some(result);
  }
}
