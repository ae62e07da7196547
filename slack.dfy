/** slack.py's `Bot`: the token check of its constructor, the cursor-paged
    user listing with its deleted/bot filters, the first-match username
    lookup and the guard in front of a direct message. Every slack_sdk call
    is an input; an exception it raises propagates out of the Bot method. */
module Slack {
  import opened Common
  import opened Seqs

  /** One member of a `users_list` response; every field may be absent. */
  datatype User = User(name: Option<string>, id: Option<string>, deleted: Option<bool>, isBot: Option<bool>)

  /** One `users_list` response: its 'members' and its top-level 'next_cursor'. */
  datatype UsersPage = UsersPage(members: Option<seq<User>>, nextCursor: Option<string>)

  /** What `list_users` returns: the user records, or only their names. */
  datatype Listing = Users(users: seq<User>) | Names(names: seq<Option<string>>)

  datatype SlackError =
    | TokenNotSet             // the constructor's check of the token
    | ApiFailure              // an exception raised inside slack_sdk
    | UnknownUser(name: string)

  /** `i.get('deleted', False) is not True` */
  const NotDeleted: User -> bool := (u: User) => u.deleted != Some(true)
  /** `i.get('is_bot', False) is not True` */
  const NotBot: User -> bool := (u: User) => u.isBot != Some(true)

  /** `token[-4:]`: the last four characters, or all of a shorter token. */
  function LastFour(token: string): (r: string)
    ensures |r| == if |token| < 4 then |token| else 4
    ensures r == token[|token| - |r|..]
  {
    if |token| < 4 then token else token[|token| - 4..]
  }

  /** The index of the reply that ends the listing: the first call that
      raised or the first page without a truthy next_cursor. */
  function UsersStop(replies: seq<Call<UsersPage>>): (k: nat)
    ensures k <= |replies|
    ensures forall j :: 0 <= j < k ==> replies[j].Answered? && Truthy(replies[j].value.nextCursor)
    ensures k < |replies| ==> replies[k].Raised? || !Truthy(replies[k].value.nextCursor)
  {
    if replies == [] || replies[0].Raised? || !Truthy(replies[0].value.nextCursor) then 0
    else 1 + UsersStop(replies[1..])
  }

  /** `result.get("members", [])` of every page. */
  function MemberPages(pages: seq<UsersPage>): (r: seq<seq<User>>)
    ensures |r| == |pages|
    ensures forall i :: 0 <= i < |pages| ==> r[i] == GetOr(pages[i].members, [])
  {
    seq(|pages|, i requires 0 <= i < |pages| => GetOr(pages[i].members, []))
  }

  /** One more page read adds its members to the end of the collected ones. */
  lemma MembersSnoc(replies: seq<Call<UsersPage>>, i: nat)
    requires i < |replies|
    requires forall j :: 0 <= j <= i ==> replies[j].Answered?
    ensures Flatten(MemberPages(Values(replies, i + 1))) ==
      Flatten(MemberPages(Values(replies, i))) + GetOr(replies[i].value.members, [])
  {
    ValuesSnoc(replies, i);
    assert MemberPages(Values(replies, i + 1)) == MemberPages(Values(replies, i)) + [GetOr(replies[i].value.members, [])];
    FlattenAppend(MemberPages(Values(replies, i)), GetOr(replies[i].value.members, []));
  }

  /** The two list comprehensions of `list_users`, each switched off by its flag. */
  function Survivors(all: seq<User>, includeDeleted: bool, includeBot: bool): (r: seq<User>)
    ensures |r| <= |all|
    ensures includeDeleted && includeBot ==> r == all
    ensures forall u :: u in r ==> u in all
    ensures !includeDeleted ==> forall u :: u in r ==> u.deleted != Some(true)
    ensures !includeBot ==> forall u :: u in r ==> u.isBot != Some(true)
  {
    var active := if includeDeleted then all else Filter(all, NotDeleted);
    FilterSound(all, NotDeleted);
    FilterSound(active, NotBot);
    if includeBot then active else Filter(active, NotBot)
  }

  /** `[i.get('name') for i in all_users]` */
  function NamesOf(users: seq<User>): (r: seq<Option<string>>)
    ensures |r| == |users|
    ensures forall i :: 0 <= i < |users| ==> r[i] == users[i].name
  {
    seq(|users|, i requires 0 <= i < |users| => users[i].name)
  }

  /** The position of the first user named `name`, if any. */
  function FirstNamed(users: seq<User>, name: string): (r: Option<nat>)
    ensures r.None? <==> forall k :: 0 <= k < |users| ==> users[k].name != Some(name)
    ensures r.Some? ==> r.value < |users| && users[r.value].name == Some(name)
    ensures r.Some? ==> forall k :: 0 <= k < r.value ==> users[k].name != Some(name)
  {
    if users == [] then None
    else if users[0].name == Some(name) then Some(0)
    else match FirstNamed(users[1..], name)
      case None => None
      case Some(k) => Some(k + 1)
  }

  /** What `username2id` returns among `users`: the id of the first user with
      that name (None when that user has no id), or None. */
  function IdOfFirstNamed(users: seq<User>, name: string): Option<string> {
    match FirstNamed(users, name)
    case None => None
    case Some(k) => users[k].id
  }

  lemma {:induction false} FirstNamedAt(users: seq<User>, name: string, n: nat)
    requires n < |users| && users[n].name == Some(name)
    requires forall k :: 0 <= k < n ==> users[k].name != Some(name)
    ensures FirstNamed(users, name) == Some(n)
  {
    if n > 0 {
      FirstNamedAt(users[1..], name, n - 1);
    }
  }

  /** With the default flags no deleted user and no bot is listed, and every
      other user is. */
  lemma DefaultFlagsKeepActiveHumans(all: seq<User>, u: User)
    ensures u in Survivors(all, false, false) <==>
      u in all && u.deleted != Some(true) && u.isBot != Some(true)
  {
    FilterMembership(all, NotDeleted, u);
    FilterMembership(Filter(all, NotDeleted), NotBot, u);
  }

  /** Whatever the flags, the filters only delete users and keep the rest in order. */
  lemma SurvivorsKeepOrder(all: seq<User>, includeDeleted: bool, includeBot: bool)
    ensures SubSeq(Survivors(all, includeDeleted, includeBot), all)
  {
    if includeDeleted && includeBot {
      FilterKeepsAll(all, (u: User) => true);
      FilterIsSubSeq(all, (u: User) => true);
    } else if includeDeleted {
      FilterIsSubSeq(all, NotBot);
    } else if includeBot {
      FilterIsSubSeq(all, NotDeleted);
    } else {
      var both := (u: User) => NotDeleted(u) && NotBot(u);
      FilterFilter(all, NotDeleted, NotBot, both);
      FilterIsSubSeq(all, both);
    }
  }

  /** Setting a flag to True switches its filter off. */
  lemma IncludeFlagsDisableFilters(all: seq<User>)
    ensures Survivors(all, true, true) == all
    ensures Survivors(all, true, false) == Filter(all, NotBot)
    ensures Survivors(all, false, true) == Filter(all, NotDeleted)
  {
  }

  /** The cursors of the first `n` `users_list` calls: none for the first,
      then each the previous reply's next_cursor. */
  function Cursors(replies: seq<Call<UsersPage>>, n: nat): (cs: seq<Option<string>>)
    requires n <= UsersStop(replies) + 1
    ensures |cs| == n
    ensures n > 0 ==> cs[0] == None
    ensures forall k :: 0 < k < n ==> replies[k - 1].Answered? && cs[k] == replies[k - 1].value.nextCursor
  {
    if n == 0 then [] else if n == 1 then [None]
    else Cursors(replies, n - 1) + [replies[n - 2].value.nextCursor]
  }

  /** The paging loop of `list_users`: `replies[i]` is what the i-th
      `users_list` call does and `sent[i]` the cursor it was given. Pages are
      requested until one has a missing or empty next_cursor; the result is
      the members of all pages, in page order. */
  method FetchAllUsers(replies: seq<Call<UsersPage>>) returns (r: Result<seq<User>, SlackError>, sent: seq<Option<string>>)
    requires UsersStop(replies) < |replies|
    ensures |sent| == UsersStop(replies) + 1
    ensures sent[0] == None
    ensures forall k :: 0 < k < |sent| ==> replies[k - 1].Answered? && sent[k] == replies[k - 1].value.nextCursor
    ensures replies[|sent| - 1].Raised? ==> r == Err(ApiFailure)
    ensures replies[|sent| - 1].Answered? ==> r == Ok(Flatten(MemberPages(Values(replies, |sent|))))
  {
    var stop := UsersStop(replies);
    var allUsers: seq<User> := [];
    var cursor: Option<string> := None;
    sent := [];
    var i := 0;
    while true
      invariant i <= stop
      invariant sent == Cursors(replies, i)
      invariant i == 0 ==> cursor == None
      invariant i > 0 ==> replies[i - 1].Answered? && cursor == replies[i - 1].value.nextCursor
      invariant allUsers == Flatten(MemberPages(Values(replies, i)))
      decreases stop - i
    {
      sent := sent + [cursor];
      if replies[i].Raised? {
        return Err(ApiFailure), sent;
      }
      var result := replies[i].value;
      var users := GetOr(result.members, []);
      MembersSnoc(replies, i);
      allUsers := allUsers + users;
      cursor := result.nextCursor;
      i := i + 1;
      if !Truthy(cursor) {
        break;
      }
    }
    r := Ok(allUsers);
  }

  class Bot {
    var tokenLast4: string

    constructor (token: string)
      requires token != ""
      ensures tokenLast4 == LastFour(token)
    {
      tokenLast4 := LastFour(token);
    }

    /** `Bot.__init__`: an empty token raises; otherwise only its last four
        characters are kept, for display. */
    static method New(token: string) returns (r: Result<Bot, SlackError>)
      ensures token == "" <==> r.Err?
      ensures r.Err? ==> r.error == TokenNotSet
      ensures r.Ok? ==> fresh(r.value) && r.value.tokenLast4 == LastFour(token)
    {
      if token == "" {
        return Err(TokenNotSet);
      }
      var b := new Bot(token);
      r := Ok(b);
    }

    /** `Bot.__str__` */
    function Display(): (s: string)
      reads this
      ensures |s| == |tokenLast4| + 30
      ensures s[..|s| - 1] == "slack_sdk.WebClient(token=..." + tokenLast4
      ensures s[|s| - 1] == ')'
    {
      "slack_sdk.WebClient(token=..." + tokenLast4 + ")"
    }

    /** `Bot.list_users`: `replies[i]` is what the i-th `users_list` call
        does and `sent[i]` the cursor it was given. Pages are requested until
        one has a missing or empty next_cursor; the members of all pages, in
        page order, then pass the deleted and bot filters the flags leave on. */
    method ListUsers(replies: seq<Call<UsersPage>>, includeDeleted: bool, includeBot: bool, onlyReturnName: bool)
      returns (r: Result<Listing, SlackError>, sent: seq<Option<string>>)
      requires UsersStop(replies) < |replies|
      ensures |sent| == UsersStop(replies) + 1
      ensures sent[0] == None
      ensures forall k :: 0 < k < |sent| ==> replies[k - 1].Answered? && sent[k] == replies[k - 1].value.nextCursor
      ensures replies[|sent| - 1].Raised? ==> r == Err(ApiFailure)
      ensures replies[|sent| - 1].Answered? ==>
        var s := Survivors(Flatten(MemberPages(Values(replies, |sent|))), includeDeleted, includeBot);
        r == Ok(if onlyReturnName then Names(NamesOf(s)) else Users(s))
    {
      var fetched;
      fetched, sent := FetchAllUsers(replies);
      if fetched.Err? {
        return Err(fetched.error), sent;
      }
      var allUsers := fetched.value;
      if !includeDeleted {
        allUsers := Filter(allUsers, NotDeleted);
      }
      if !includeBot {
        allUsers := Filter(allUsers, NotBot);
      }
      if onlyReturnName {
        r := Ok(Names(NamesOf(allUsers)));
      } else {
        r := Ok(Users(allUsers));
      }
    }

    /** `Bot.username2id`: among the active, non-bot users, the id of the
        first whose name equals `name`, or None when there is none. */
    method Username2Id(replies: seq<Call<UsersPage>>, name: string) returns (r: Result<Option<string>, SlackError>)
      requires UsersStop(replies) < |replies|
      ensures replies[UsersStop(replies)].Raised? ==> r == Err(ApiFailure)
      ensures replies[UsersStop(replies)].Answered? ==>
        r == Ok(IdOfFirstNamed(Survivors(Flatten(MemberPages(Values(replies, UsersStop(replies) + 1))), false, false), name))
    {
      var listing, _ := ListUsers(replies, false, false, false);
      if listing.Err? {
        return Err(listing.error);
      }
      var users := listing.value.users;
      for i := 0 to |users|
        invariant forall k :: 0 <= k < i ==> users[k].name != Some(name)
      {
        if users[i].name == Some(name) {
          FirstNamedAt(users, name, i);
          return Ok(users[i].id);
        }
      }
      r := Ok(None);
    }

    /** The guard of `Bot.send_dm_to_user`: the user id a direct-message
        conversation is opened with, or the error raised before any
        conversation is opened when the name is not found. */
    method SendDmTarget(replies: seq<Call<UsersPage>>, username: string) returns (r: Result<string, SlackError>)
      requires UsersStop(replies) < |replies|
      ensures replies[UsersStop(replies)].Raised? ==> r == Err(ApiFailure)
      ensures replies[UsersStop(replies)].Answered? ==>
        var id := IdOfFirstNamed(Survivors(Flatten(MemberPages(Values(replies, UsersStop(replies) + 1))), false, false), username);
        r == if id.None? then Err(UnknownUser(username)) else Ok(id.value)
    {
      var userId := Username2Id(replies, username);
      if userId.Err? {
        return Err(userId.error);
      }
      if userId.value.None? {
        return Err(UnknownUser(username));
      }
      r := Ok(userId.value.value);
    }
  }
}
