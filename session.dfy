/**
 * The last step of `login`: the single match of the session pattern becomes a
 * `DocomoId`. The pattern engine is not modelled; its outcome is an optional match
 * holding capture groups 1 to 3.
 */
module Session {
  import opened Outcomes

  /** `DocomoId((session_id, user_id, member_id))`: the three tokens the portal issues on login. */
  datatype DocomoId = DocomoId(sessionId: string, userId: string, memberId: string)

  /** Groups 1 to 3 of the session pattern: the SessionID, UserID and MemberID values. */
  datatype SessionMatch = SessionMatch(sessionId: Option<string>, userId: Option<string>, memberId: Option<string>)

  /** Why `login` panics: `captures(..).unwrap()` found no match, or an `expect` fired with its message. */
  datatype LoginPanic = NoMatch | FieldMissing(message: string)

  /**
   * `captures(&t).unwrap()` followed by the three `expect`s, in field order: the first
   * missing field is the one reported; otherwise the tokens are taken in group order.
   */
  function SessionFromMatch(m: Option<SessionMatch>): (r: Result<DocomoId, LoginPanic>)
    ensures r.Ok? <==> m.Some? && m.value.sessionId.Some? && m.value.userId.Some? && m.value.memberId.Some?
    ensures r.Ok? ==> r.value.sessionId == m.value.sessionId.value && r.value.userId == m.value.userId.value &&
                      r.value.memberId == m.value.memberId.value
    ensures r == Err(NoMatch) <==> m.None?
    ensures r == Err(FieldMissing("SessionID not found")) <==> m.Some? && m.value.sessionId.None?
    ensures r == Err(FieldMissing("UserID not found")) <==>
      m.Some? && m.value.sessionId.Some? && m.value.userId.None?
    ensures r == Err(FieldMissing("MemberID not found")) <==>
      m.Some? && m.value.sessionId.Some? && m.value.userId.Some? && m.value.memberId.None?
  {
    match m
    case None => Err(NoMatch)
    case Some(caps) =>
      if caps.sessionId.None? then Err(FieldMissing("SessionID not found"))
      else if caps.userId.None? then Err(FieldMissing("UserID not found"))
      else if caps.memberId.None? then Err(FieldMissing("MemberID not found"))
      else Ok(DocomoId(caps.sessionId.value, caps.userId.value, caps.memberId.value))
  }

  /** Once the pattern matches, all three groups take part, so no `expect` can fire. */
  lemma MatchedNeverMissing(sessionId: string, userId: string, memberId: string)
    ensures SessionFromMatch(Some(SessionMatch(Some(sessionId), Some(userId), Some(memberId))))
         == Ok(DocomoId(sessionId, userId, memberId))
  {
  }
}
