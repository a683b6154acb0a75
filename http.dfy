/** The parts of the HTTP response the server functions touch: the status and the header map. */
module Http {
  import opened Wrappers
  import opened Text

  const StatusOk := 200
  /** 401, section 15.5.2 of RFC 9110. */
  const StatusUnauthorized := 401
  /** 409, section 15.5.10 of RFC 9110. */
  const StatusConflict := 409
  /** 422, section 15.5.21 of RFC 9110. */
  const StatusUnprocessableContent := 422
  /** 500, section 15.6.1 of RFC 9110. */
  const StatusInternalServerError := 500

  const SetCookieHeader := "set-cookie"

  /**
   * `HeaderValue::from_str` accepts a string whose bytes are all visible ASCII, space,
   * horizontal tab or non-ASCII (the bytes of a multi-byte UTF-8 character are all >= 0x80).
   */
  predicate IsHeaderValueChar(c: char) { (c as int >= 0x20 && c as int != 0x7F) || c == '\t' }

  predicate IsHeaderValue(s: string) { forall i :: 0 <= i < |s| ==> IsHeaderValueChar(s[i]) }

  /** Joining legal header values with a legal separator gives a legal header value. */
  lemma {:induction false} JoinIsHeaderValue(parts: seq<string>, sep: string)
    requires IsHeaderValue(sep)
    requires forall i :: 0 <= i < |parts| ==> IsHeaderValue(parts[i])
    ensures IsHeaderValue(Join(parts, sep))
    decreases |parts|
  {
    if |parts| > 1 {
      JoinIsHeaderValue(parts[1..], sep);
      var head, tail := parts[0] + sep, Join(parts[1..], sep);
      assert Join(parts, sep) == head + tail;
      forall i | 0 <= i < |head| + |tail| ensures IsHeaderValueChar((head + tail)[i]) {
        if i < |parts[0]| {
          assert (head + tail)[i] == parts[0][i];
        } else if i < |head| {
          assert (head + tail)[i] == sep[i - |parts[0]|];
        } else {
          assert (head + tail)[i] == tail[i - |head|];
        }
      }
    }
  }

  /** `leptos_actix::ResponseOptions`, shared by a request's handlers. */
  class ResponseOptions {
    var status: Option<int>
    var headers: map<string, string>

    constructor ()
      ensures status == None && headers == map[]
    {
      status, headers := None, map[];
    }

    /** `set_status`. */
    method SetStatus(code: int)
      modifies this
      ensures status == Some(code) && headers == old(headers)
    {
      status := Some(code);
    }

    /** `insert_header`: replaces any earlier value of the header. */
    method InsertHeader(name: string, value: string)
      modifies this
      ensures headers == old(headers)[name := value] && status == old(status)
    {
      headers := headers[name := value];
    }
  }
}
