/** Records kept by the database (the Folder, File and User collections) and the
    small JavaScript value conventions the handlers rely on. */
module Records {

  datatype Option<+T> = None | Some(value: T)

  /** A database object id; opaque, only compared for equality. */
  type Id = nat

  /** JavaScript truthiness of a string that may be missing: `undefined`, `null`
      and `""` are falsy. */
  predicate Truthy(s: Option<string>) {
    s.Some? && s.value != ""
  }

  /** `s || fallback` for a string that may be missing. */
  function OrElse(s: Option<string>, fallback: string): (r: string)
    ensures Truthy(s) ==> r == s.value
    ensures !Truthy(s) ==> r == fallback
  {
    if Truthy(s) then s.value else fallback
  }

  /** `s || null` for a string that may be missing. */
  function OrNull(s: Option<string>): (r: Option<string>)
    ensures r.Some? <==> Truthy(s)
    ensures r.Some? ==> r == s
  {
    if Truthy(s) then s else None
  }

  /** A session user's `telegramId` passes `if (!req.user.telegramId)` only when it
      is set and not 0. */
  predicate Linked(telegramId: Option<int>) {
    telegramId.Some? && telegramId.value != 0
  }

  /** `Number(req.user.telegramId)`: a stored id is itself (0 included) and a
      missing (null) id becomes 0. */
  function AsNumber(telegramId: Option<int>): (n: int)
    ensures telegramId.Some? ==> n == telegramId.value
    ensures telegramId.None? ==> n == 0
  {
    if telegramId.Some? then telegramId.value else 0
  }

  /** A folder document: owner, display name and parent (null at the root). */
  datatype Folder = Folder(telegramId: int, name: string, parentFolderId: Option<Id>)

  /** A file document: the Telegram message that holds the bytes and its metadata.
      `folderId` is None for a file at the root. */
  datatype FileRecord = FileRecord(
    telegramId: int,
    messageId: int,
    fileId: string,
    thumbFileId: Option<string>,
    fileType: string,
    fileName: Option<string>,
    mimeType: Option<string>,
    folderId: Option<Id>)

  /** A website account and the state of its link to a Telegram account. */
  datatype User = User(
    username: string,
    telegramId: Option<int>,
    telegramVerified: bool,
    telegramVerifyCode: Option<string>)

  /** No two elements of `s` are equal. */
  predicate Distinct<T(==)>(s: seq<T>) {
    forall i, j :: 0 <= i < j < |s| ==> s[i] != s[j]
  }

  lemma DistinctConcat<T>(a: seq<T>, b: seq<T>)
    requires Distinct(a) && Distinct(b)
    requires forall x :: x in b ==> x !in a
    ensures Distinct(a + b)
  {
    forall i, j | 0 <= i < j < |a + b|
      ensures (a + b)[i] != (a + b)[j]
    {
      if j >= |a| && i < |a| {
        assert (a + b)[j] in b && (a + b)[i] in a;
      }
    }
  }
}
