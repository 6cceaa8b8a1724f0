/**
 * Record shapes of the identity provider's session and of the hosted store's
 * tables (`student`, `users`), as the sign-in code reads and writes them.
 */
module Records {
  import opened Wrappers

  /** A row of the authorized roster; `email` is its conflict key. */
  datatype AuthorizedUser = AuthorizedUser(email: string, name: string)

  /** What awaiting `fetch(url)` and then `response.text()` gives: the body text, or the message of what they threw. */
  datatype FetchOutcome = Fetched(text: string) | FetchThrew(message: string)

  /** An error object the store returns: its code and message. */
  datatype StoreError = StoreError(code: string, message: string)

  /** A call an importer makes on the store, in the order made. */
  datatype RosterCall = CreateClient | Upsert(table: string, rows: seq<AuthorizedUser>, onConflict: string)

  /** The provider-supplied profile fields the site reads (`user_metadata`). */
  datatype UserMetadata = UserMetadata(fullName: Option<string>, name: Option<string>, avatarUrl: Option<string>)

  /** A signed-in identity: provider subject id, email (may be absent) and metadata. */
  datatype User = User(id: string, email: Option<string>, metadata: UserMetadata)

  /** A provider session; `user` may be missing, which the code guards with `?.`. */
  datatype Session = Session(user: Option<User>)

  /**
   * The `users` row upserted (conflict key `id`) on an authorized sign-in.
   * `createdAt` is None when the write leaves that column out.
   */
  datatype ProfileUpsert = ProfileUpsert(
    id: string, email: string, name: string, avatarUrl: Option<string>,
    lastSignIn: string, createdAt: Option<string>)

  /**
   * The answer of a single-row roster lookup by email: the row, no row, or a
   * store error with its code and message.
   */
  datatype LookupResult = Row(record: AuthorizedUser) | NoRow | LookupError(code: string, message: string)

  /** JavaScript truthiness of an optional string: present and non-empty. */
  predicate Truthy(s: Option<string>) {
    s.Some? && s.value != ""
  }

  /** `session?.user?.email` when it is truthy, else None. */
  function SessionEmail(session: Option<Session>): (r: Option<string>)
    ensures r.Some? ==> r.value != ""
    ensures r.Some? <==> session.Some? && session.value.user.Some? && Truthy(session.value.user.value.email)
  {
    if session.Some? && session.value.user.Some? && Truthy(session.value.user.value.email)
    then session.value.user.value.email
    else None
  }

  /** `session?.user ?? null` */
  function SessionUser(session: Option<Session>): (r: Option<User>)
    ensures r.Some? ==> session.Some? && session.value.user == r
    ensures session.Some? ==> r == session.value.user
  {
    if session.Some? then session.value.user else None
  }

  /**
   * The profile name: `full_name || name || "User"`. Never empty, and the
   * full name wins whenever it is non-empty.
   */
  function DisplayName(m: UserMetadata): (r: string)
    ensures r != ""
    ensures r == "User" || Some(r) == m.fullName || Some(r) == m.name
    ensures Truthy(m.fullName) ==> r == m.fullName.value
    ensures !Truthy(m.fullName) && Truthy(m.name) ==> r == m.name.value
  {
    if Truthy(m.fullName) then m.fullName.value
    else if Truthy(m.name) then m.name.value
    else "User"
  }

  /** The `users` row for an authorized session, stamped with `lastSignIn`. */
  function ProfileFor(user: User, email: string, now: string, createdAt: Option<string>): (p: ProfileUpsert)
    ensures p.id == user.id && p.email == email && p.name == DisplayName(user.metadata)
    ensures p.avatarUrl == user.metadata.avatarUrl && p.lastSignIn == now && p.createdAt == createdAt
  {
    ProfileUpsert(user.id, email, DisplayName(user.metadata), user.metadata.avatarUrl, now, createdAt)
  }
}
