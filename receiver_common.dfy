/** What the two Go telemetry receivers share: the bearer-token check, the
    defaulting string lookup, and the rule that keeps each user's list of
    messages within the configured limit. */
module ReceiverCommon {
  import opened Wrappers
  import opened Json
  import opened GoStrings

  /** An HTTP header: canonical field names to their values. */
  type Header = map<string, seq<string>>

  /** Each user's API keys, as the receivers are configured with them. */
  type ApiKeys = map<string, seq<string>>

  /** `http.Header.Get(name)`: the first value of the field, or `""`. */
  function HeaderValue(h: Header, name: string): (r: string)
    ensures name in h && |h[name]| > 0 ==> r == h[name][0]
    ensures name !in h || |h[name]| == 0 ==> r == ""
  {
    if name in h && |h[name]| > 0 then h[name][0] else ""
  }

  function AuthorizationField(): string { "Authorization" }
  function BearerScheme(): string { "Bearer" }

  /** `tokenFromHeader`: the second of exactly two space-separated fields
      of the `Authorization` header whose first is `Bearer`, and `""` for
      every other header. */
  function TokenFromHeader(h: Header): (token: string)
    ensures token != "" ==> |Split(HeaderValue(h, AuthorizationField()), ' ')| == 2
  {
    var parts := Split(HeaderValue(h, AuthorizationField()), ' ');
    if |parts| != 2 || parts[0] != BearerScheme() then "" else parts[1]
  }

  /** A non-empty token comes from a header `Bearer <token>`, and the token
      holds no space. */
  lemma TokenHeaderForm(h: Header)
    ensures var token := TokenFromHeader(h);
      token != "" ==> ' ' !in token && HeaderValue(h, AuthorizationField()) == BearerScheme() + " " + token
  {
    var value := HeaderValue(h, AuthorizationField());
    var parts := Split(value, ' ');
    JoinSplit(value, ' ');
    if TokenFromHeader(h) != "" {
      assert parts[1..] == [parts[1]];
      assert Join(parts, ' ') == parts[0] + " " + parts[1];
    }
  }

  /** Conversely, the header `Bearer <token>` gives back the token when it
      holds no space. */
  lemma BearerHeaderToken(h: Header, token: string)
    requires ' ' !in token
    requires HeaderValue(h, AuthorizationField()) == BearerScheme() + " " + token
    ensures TokenFromHeader(h) == token
  {
    var parts := [BearerScheme(), token];
    assert Fields(parts, ' ');
    assert Join(parts, ' ') == BearerScheme() + " " + token by {
      assert parts[1..] == [token];
    }
    SplitJoin(parts, ' ');
  }

  /** A header with three fields, such as `no good token`, gives no token. */
  lemma ThreeFieldHeader(h: Header, a: string, b: string, c: string)
    requires ' ' !in a && ' ' !in b && ' ' !in c
    requires HeaderValue(h, AuthorizationField()) == a + " " + b + " " + c
    ensures TokenFromHeader(h) == ""
  {
    var parts := [a, b, c];
    assert Fields(parts, ' ');
    assert Join(parts, ' ') == a + " " + b + " " + c by {
      assert parts[1..] == [b, c];
      assert [b, c][1..] == [c];
      assert Join([b, c], ' ') == b + " " + c;
    }
    SplitJoin(parts, ' ');
  }

  /** `token` is one of `userID`'s API keys. */
  predicate Owns(keys: ApiKeys, userID: string, token: string) {
    userID in keys && token in keys[userID]
  }

  /** `authenticated`: walk the users, in whatever order Go's map iteration
      picks, and each user's keys, and return the first user with a key
      equal to the header's token. */
  method Authenticated(h: Header, validUserApiKeys: ApiKeys) returns (userID: string, authed: bool)
    ensures authed ==> Owns(validUserApiKeys, userID, TokenFromHeader(h))
    ensures !authed ==> userID == ""
    ensures !authed <==> forall u :: u in validUserApiKeys ==> !Owns(validUserApiKeys, u, TokenFromHeader(h))
  {
    var token := TokenFromHeader(h);
    var remaining := validUserApiKeys.Keys;
    while remaining != {}
      invariant remaining <= validUserApiKeys.Keys
      invariant forall u :: u in validUserApiKeys && u !in remaining ==> !Owns(validUserApiKeys, u, token)
      decreases remaining
    {
      var u :| u in remaining;
      var keys := validUserApiKeys[u];
      var i := 0;
      while i < |keys|
        invariant 0 <= i <= |keys|
        invariant token !in keys[..i]
      {
        if token == keys[i] {
          return u, true;
        }
        i := i + 1;
      }
      assert keys[..i] == keys;
      remaining := remaining - {u};
    }
    return "", false;
  }

  /** `getString`: the value under `key` when it is present and a string,
      the default otherwise. */
  function GetString(data: Object, key: string, defaultValue: string): (r: string)
    ensures key in data && data[key].JString? ==> r == data[key].s
    ensures r != defaultValue ==> key in data && data[key] == JString(r)
    ensures key !in data || !data[key].JString? ==> r == defaultValue
  {
    if key in data && data[key].JString? then data[key].s else defaultValue
  }

  /** The newest `n` elements of `s`: all of it when it is no longer. */
  function Newest<T>(s: seq<T>, n: nat): (r: seq<T>)
    ensures |r| == if |s| <= n then |s| else n
    ensures r == s[|s| - |r|..]
  {
    if |s| <= n then s else s[|s| - n..]
  }

  /** `updateMessages` on one user's list: drop the oldest entries so that
      the list and the received messages together fit the limit, then
      append. The slice that drops them is out of range when more messages
      arrive than the limit allows, and the handler then panics (`None`). */
  function UpdatedMessages(curr: seq<Object>, received: seq<Object>, limit: int): (r: Option<seq<Object>>)
    ensures r.None? <==> |received| > limit
    ensures r.Some? ==> r.value == Newest(curr + received, limit)
  {
    var toRemove := |received| + |curr| - limit;
    if toRemove > 0 then
      if toRemove <= |curr| then
        assert curr[toRemove..] + received == (curr + received)[toRemove..];
        Some(curr[toRemove..] + received)
      else None
    else Some(curr + received)
  }

  /** The kept list ends with every received message, after a suffix of
      the old list, and is within the limit. */
  lemma UpdateKeepsReceived(curr: seq<Object>, received: seq<Object>, limit: int)
    requires UpdatedMessages(curr, received, limit).Some?
    ensures var kept := UpdatedMessages(curr, received, limit).value;
      && |kept| <= limit
      && |received| <= |kept|
      && kept[|kept| - |received|..] == received
      && kept[..|kept| - |received|] == curr[|curr| - (|kept| - |received|)..]
  {
    var kept := UpdatedMessages(curr, received, limit).value;
    var all := curr + received;
    assert kept == all[|all| - |kept|..];
    assert kept[|kept| - |received|..] == all[|curr|..];
    assert kept[..|kept| - |received|] == all[|all| - |kept|..|curr|];
  }

  /** Nothing is dropped while the lists fit the limit; otherwise the kept
      list is exactly as long as the limit. */
  lemma UpdateSizeBound(curr: seq<Object>, received: seq<Object>, limit: int)
    requires |received| <= limit
    ensures |curr| + |received| <= limit ==> UpdatedMessages(curr, received, limit) == Some(curr + received)
    ensures |curr| + |received| > limit ==> |UpdatedMessages(curr, received, limit).value| == limit
  {
  }

  /** The lists after a run of posts, one after the other; a post that
      panics leaves the list as it was. */
  function AfterPosts(curr: seq<Object>, posts: seq<seq<Object>>, limit: int): seq<Object>
    decreases |posts|
  {
    if posts == [] then curr
    else
      var next := match UpdatedMessages(curr, posts[0], limit)
        case None => curr
        case Some(kept) => kept;
      AfterPosts(next, posts[1..], limit)
  }

  /** One post per message. */
  function Singles(msgs: seq<Object>): (posts: seq<seq<Object>>)
    ensures |posts| == |msgs| && forall i :: 0 <= i < |msgs| ==> posts[i] == [msgs[i]]
  {
    seq(|msgs|, i requires 0 <= i < |msgs| => [msgs[i]])
  }

  /** Keeping the newest `n` twice, with more appended in between, is
      keeping the newest `n` of everything. */
  lemma NewestAppend<T>(s: seq<T>, t: seq<T>, n: nat)
    ensures Newest(Newest(s, n) + t, n) == Newest(s + t, n)
  {
    var a, b := Newest(Newest(s, n) + t, n), Newest(s + t, n);
    assert |a| == |b|;
    forall i | 0 <= i < |a|
      ensures a[i] == b[i]
    {
      var k := |s + t| - |b| + i;
      if k < |s| {
        assert b[i] == s[k];
      } else {
        assert b[i] == t[k - |s|];
      }
    }
  }

  /** The first of a run of single posts, when it fits the limit. */
  lemma FirstSinglePost(curr: seq<Object>, msgs: seq<Object>, limit: nat)
    requires limit >= 1 && msgs != []
    ensures AfterPosts(curr, Singles(msgs), limit)
         == AfterPosts(Newest(curr + [msgs[0]], limit), Singles(msgs[1..]), limit)
  {
    var posts := Singles(msgs);
    assert posts[0] == [msgs[0]];
    assert posts[1..] == Singles(msgs[1..]);
  }

  /** Posting messages one at a time keeps the newest `limit` of them. */
  lemma {:induction false} PostSinglesKeepNewest(curr: seq<Object>, msgs: seq<Object>, limit: nat)
    requires limit >= 1 && |curr| <= limit
    ensures AfterPosts(curr, Singles(msgs), limit) == Newest(curr + msgs, limit)
    decreases |msgs|
  {
    if msgs == [] {
      assert curr + msgs == curr;
    } else {
      var next := Newest(curr + [msgs[0]], limit);
      FirstSinglePost(curr, msgs, limit);
      PostSinglesKeepNewest(next, msgs[1..], limit);
      NewestAppend(curr + [msgs[0]], msgs[1..], limit);
      AppendFirst(curr, msgs);
    }
  }

  lemma AppendFirst<T>(a: seq<T>, s: seq<T>)
    requires s != []
    ensures a + [s[0]] + s[1..] == a + s
  {
    assert s == [s[0]] + s[1..];
  }

  /** The message `{"msgNum": i}`. */
  function Numbered(i: int): Object {
    map["msgNum" := JNumber(i)]
  }

  /** The messages numbered `0` to `n - 1`, in order. */
  function NumberedMessages(n: nat): (msgs: seq<Object>)
    ensures |msgs| == n && forall i :: 0 <= i < n ==> msgs[i] == Numbered(i)
  {
    seq(n, i => Numbered(i))
  }

  /** Fifty-one single posts, numbered 0 to 50, to a user with no messages
      and a limit of 50: the fifty kept run from number 1 to number 50. */
  lemma FiftyOnePostsKeepFifty()
    ensures var kept := AfterPosts([], Singles(NumberedMessages(51)), 50);
      |kept| == 50 && kept[0] == Numbered(1) && kept[49] == Numbered(50)
  {
    var msgs := NumberedMessages(51);
    PostSinglesKeepNewest([], msgs, 50);
    assert [] + msgs == msgs;
    var kept := Newest(msgs, 50);
    assert kept == msgs[1..];
    assert kept[0] == msgs[1] && kept[49] == msgs[50];
  }
}
