/** The session records and the merge semantics of `UpdateSession`. */
module SessionModels {
  import opened Wrappers
  import opened Records

  /** `CreateSession`: what the session manager sends; the store adds `id` and `created_at`. */
  datatype CreateSession = CreateSession(user_id: RecordId, session_token: string, expires_at: Datetime)

  /** `Session` as stored. */
  datatype Session = Session(id: RecordId, user_id: RecordId, session_token: string,
                             expires_at: Datetime, created_at: Datetime)

  /** `UpdateSession`: a `None` field is skipped when serialised, so the merge does not touch it. */
  datatype UpdateSession = UpdateSession(session_token: Option<string>, expires_at: Option<Datetime>)

  /** The record the store keeps for a `CreateSession`. */
  function StoredSession(c: CreateSession, id: RecordId, now: Datetime): (s: Session)
    ensures s.id == id && s.created_at == now
    ensures s.user_id == c.user_id && s.session_token == c.session_token && s.expires_at == c.expires_at
  {
    Session(id, c.user_id, c.session_token, c.expires_at, now)
  }

  /** A merge-update of a stored session: only the fields the patch carries change. */
  function Merge(s: Session, patch: UpdateSession): (r: Session)
    ensures r.id == s.id && r.user_id == s.user_id && r.created_at == s.created_at
    ensures r.session_token == if patch.session_token.Some? then patch.session_token.value else s.session_token
    ensures r.expires_at == if patch.expires_at.Some? then patch.expires_at.value else s.expires_at
  {
    s.(session_token := patch.session_token.GetOr(s.session_token),
       expires_at := patch.expires_at.GetOr(s.expires_at))
  }

  /** The patch equivalent to applying `first` and then `second`. */
  function Then(first: UpdateSession, second: UpdateSession): UpdateSession {
    UpdateSession(if second.session_token.Some? then second.session_token else first.session_token,
                  if second.expires_at.Some? then second.expires_at else first.expires_at)
  }

  /** Two merges in a row are one merge of the combined patch. */
  lemma MergeThen(s: Session, first: UpdateSession, second: UpdateSession)
    ensures Merge(Merge(s, first), second) == Merge(s, Then(first, second))
  {
  }

  /** Merging the same patch twice is merging it once; the empty patch changes nothing. */
  lemma MergeIdempotent(s: Session, patch: UpdateSession)
    ensures Merge(Merge(s, patch), patch) == Merge(s, patch)
    ensures Merge(s, UpdateSession(None, None)) == s
  {
  }
}
