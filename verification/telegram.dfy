/**
 * `TelegramParser.parse_group`: resolve a group link (redirecting a broadcast
 * channel to its discussion group), fetch at most twice the contact limit of
 * members, and keep, in order, up to the limit of them that pass the filters,
 * each projected to a contact record.
 *
 * The Telegram client is modelled by `Client`, the answers it would give; a
 * request it has no answer for stands for a request that raises.
 */
module Telegram {
  import opened Wrappers
  import opened Criteria

  /** A member as the client reports it; absent optional attributes are `None`. */
  datatype User = User(
    id: int,
    bot: bool,
    deleted: bool,
    username: Option<string>,
    phone: Option<string>,
    firstName: Option<string>,
    lastName: Option<string>)

  /** The contact record `parse_group` builds for a retained member. */
  datatype Contact = Contact(
    id: int,
    username: string,
    phone: string,
    firstName: string,
    lastName: string,
    group: string)

  /** A resolved chat: its id and whether it is a broadcast channel (false when it has no `broadcast` attribute). */
  datatype Entity = Entity(id: int, broadcast: bool)

  /** The answers of the Telegram client; a key that is missing means the request raises. */
  datatype Client = Client(
    byLink: map<string, Entity>,        // get_entity(group_link)
    linkedChat: map<int, Option<int>>,  // GetFullChannelRequest(channel).full_chat.linked_chat_id, by channel id
    byId: map<int, Entity>,             // get_entity(chat_id)
    members: map<int, seq<User>>)       // all members of a chat, by chat id, in the order the client yields them

  /** Python truthiness of an optional string: present and not empty. */
  predicate Truthy(o: Option<string>) {
    o.Some? && o.value != ""
  }

  /** Python's `x or ""` for an optional string. */
  function OrEmpty(o: Option<string>): string {
    if Truthy(o) then o.value else ""
  }

  /** The first `n` elements of `s` (all of them when there are fewer; none when `n <= 0`). */
  function Take<T>(s: seq<T>, n: int): (r: seq<T>)
    ensures |r| <= |s| && r == s[..|r|]
    ensures n <= 0 ==> r == []
    ensures 0 < n ==> |r| == if n < |s| then n else |s|
  {
    if n <= 0 then [] else if n < |s| then s[..n] else s
  }

  /**
   * The chat whose members `parse_group` reads for `link`, or `None` where it returns
   * `[]` first: an unknown link gives none, a chat that is not a broadcast channel is
   * itself, and a channel gives a chat looked up by id, its discussion group.
   */
  function Resolve(client: Client, link: string): (r: Option<Entity>)
    ensures link !in client.byLink ==> r == None
    ensures r.Some? ==>
      && link in client.byLink
      && (!client.byLink[link].broadcast ==> r.value == client.byLink[link])
      && (client.byLink[link].broadcast ==> r.value in client.byId.Values)
  {
    if link !in client.byLink then None
    else
      var e := client.byLink[link];
      if !e.broadcast then Some(e)
      else if e.id !in client.linkedChat then None
      else
        var linked := client.linkedChat[e.id];
        if linked.None? || linked.value == 0 || linked.value !in client.byId then None
        else Some(client.byId[linked.value])
  }

  /**
   * `get_participants(entity, limit=max_contacts * 2)` on the resolved chat: the first
   * members of that chat, at most twice the limit; `None` when there is no chat or the
   * request fails.
   */
  function Participants(client: Client, link: string, maxContacts: int): (r: Option<seq<User>>)
    ensures Resolve(client, link).None? ==> r == None
    ensures r.Some? ==>
      && Resolve(client, link).Some? && Resolve(client, link).value.id in client.members
      && |r.value| <= |client.members[Resolve(client, link).value.id]|
      && r.value == client.members[Resolve(client, link).value.id][..|r.value|]
      && (|r.value| <= 2 * maxContacts || r.value == [])
  {
    match Resolve(client, link)
    case None => None
    case Some(e) =>
      if e.id in client.members then Some(Take(client.members[e.id], maxContacts * 2)) else None
  }

  /**
   * The three filters of the member loop: not a bot when bots are excluded, not deleted,
   * a username when required. A live member passes whenever neither filter that applies
   * excludes it: bots are kept when exclusion is off, members without a username unless
   * the priority is "username".
   */
  predicate Keep(u: User, c: Criteria): (b: bool)
    ensures b ==> !u.deleted
    ensures b && c.excludeBots ==> !u.bot
    ensures b && c.priority == "username" ==> Truthy(u.username)
    ensures !u.deleted && !(c.excludeBots && u.bot) && (c.priority != "username" || Truthy(u.username)) ==> b
  {
    && !(c.excludeBots && u.bot)
    && !u.deleted
    && !(c.priority == "username" && !Truthy(u.username))
  }

  /**
   * The contact record of a retained member: its id and the group link, the username
   * behind an "@" and the phone behind a "+" when the member has them, "" otherwise,
   * and the first and last names, "" when absent.
   */
  function Project(u: User, link: string): (r: Contact)
    ensures r.id == u.id && r.group == link
    ensures r.username != "" <==> Truthy(u.username)
    ensures r.username != "" ==> r.username[0] == '@' && r.username[1..] == u.username.value
    ensures r.phone != "" <==> Truthy(u.phone)
    ensures r.phone != "" ==> r.phone[0] == '+' && r.phone[1..] == u.phone.value
    ensures r.firstName == "" <==> !Truthy(u.firstName)
    ensures Truthy(u.firstName) ==> r.firstName == u.firstName.value
    ensures r.lastName == "" <==> !Truthy(u.lastName)
    ensures Truthy(u.lastName) ==> r.lastName == u.lastName.value
  {
    Contact(
      u.id,
      if Truthy(u.username) then "@" + u.username.value else "",
      if Truthy(u.phone) then "+" + u.phone.value else "",
      OrEmpty(u.firstName),
      OrEmpty(u.lastName),
      link)
  }

  /** The records of all members that pass the filters, in member order. */
  function Kept(us: seq<User>, link: string, c: Criteria): (r: seq<Contact>)
    ensures |r| <= |us|
  {
    if us == [] then []
    else (if Keep(us[0], c) then [Project(us[0], link)] else []) + Kept(us[1..], link, c)
  }

  /** What `parse_group` returns for `link` under criteria `c`: at most `max_contacts` records, none without a chat. */
  function GroupContacts(client: Client, link: string, c: Criteria): (r: seq<Contact>)
    ensures |r| <= c.maxContacts || r == []
    ensures Resolve(client, link).None? ==> r == []
  {
    match Participants(client, link, c.maxContacts)
    case None => []
    case Some(ps) => Take(Kept(ps, link, c), c.maxContacts)
  }

  /**
   * `cs` is an order-preserving selection from `us`: each record is the projection
   * of a later member than the one before it, and that member passes the filters.
   */
  predicate SelectedFrom(cs: seq<Contact>, us: seq<User>, link: string, c: Criteria)
    decreases |us|
  {
    if cs == [] then true
    else if us == [] then false
    else if Keep(us[0], c) && cs[0] == Project(us[0], link) then SelectedFrom(cs[1..], us[1..], link, c)
    else SelectedFrom(cs, us[1..], link, c)
  }

  /** `ct` is the record of some member of `us` that passes the filters. */
  predicate FromKeptMember(ct: Contact, us: seq<User>, link: string, c: Criteria) {
    exists j :: 0 <= j < |us| && Keep(us[j], c) && ct == Project(us[j], link)
  }

  /** The shape of every record: its group label, an "@" username or "", a "+" phone or "". */
  predicate WellFormed(ct: Contact, link: string, c: Criteria) {
    && ct.group == link
    && (ct.username == "" || (|ct.username| >= 2 && ct.username[0] == '@'))
    && (ct.phone == "" || (|ct.phone| >= 2 && ct.phone[0] == '+'))
    && (c.priority == "username" ==> ct.username != "")
  }

  lemma {:induction false} KeptAppend(us: seq<User>, vs: seq<User>, link: string, c: Criteria)
    ensures Kept(us + vs, link, c) == Kept(us, link, c) + Kept(vs, link, c)
  {
    if us == [] {
      assert us + vs == vs;
    } else {
      var head := if Keep(us[0], c) then [Project(us[0], link)] else [];
      assert (us + vs)[0] == us[0] && (us + vs)[1..] == us[1..] + vs;
      KeptAppend(us[1..], vs, link, c);
      assert Kept(us + vs, link, c) == head + Kept(us[1..] + vs, link, c);
      assert head + (Kept(us[1..], link, c) + Kept(vs, link, c)) == (head + Kept(us[1..], link, c)) + Kept(vs, link, c);
    }
  }

  /** The records of the filtered members are an order-preserving selection of them. */
  lemma {:induction false} KeptSelected(us: seq<User>, link: string, c: Criteria)
    ensures SelectedFrom(Kept(us, link, c), us, link, c)
  {
    if us != [] {
      KeptSelected(us[1..], link, c);
      var later := Kept(us[1..], link, c);
      if Keep(us[0], c) {
        assert Kept(us, link, c) == [Project(us[0], link)] + later;
      } else {
        assert Kept(us, link, c) == later;
      }
    }
  }

  /** A prefix of a selection is a selection. */
  lemma {:induction false} SelectedPrefix(cs: seq<Contact>, us: seq<User>, link: string, c: Criteria, n: nat)
    requires SelectedFrom(cs, us, link, c) && n <= |cs|
    ensures SelectedFrom(cs[..n], us, link, c)
    decreases |us|
  {
    if n > 0 && us != [] {
      if Keep(us[0], c) && cs[0] == Project(us[0], link) {
        assert cs[..n][1..] == cs[1..][..n - 1];
        SelectedPrefix(cs[1..], us[1..], link, c, n - 1);
      } else {
        SelectedPrefix(cs, us[1..], link, c, n);
      }
    }
  }

  /** A selection from `us` is a selection from any list that starts with `us`. */
  lemma {:induction false} SelectedExtend(cs: seq<Contact>, us: seq<User>, vs: seq<User>, link: string, c: Criteria)
    requires SelectedFrom(cs, us, link, c)
    ensures SelectedFrom(cs, us + vs, link, c)
    decreases |us|
  {
    if cs != [] {
      assert (us + vs)[0] == us[0] && (us + vs)[1..] == us[1..] + vs;
      if Keep(us[0], c) && cs[0] == Project(us[0], link) {
        SelectedExtend(cs[1..], us[1..], vs, link, c);
      } else {
        SelectedExtend(cs, us[1..], vs, link, c);
      }
    }
  }

  /** Every record of a selection comes from a member that passes the filters. */
  lemma {:induction false} SelectedSound(cs: seq<Contact>, us: seq<User>, link: string, c: Criteria)
    requires SelectedFrom(cs, us, link, c)
    ensures forall i :: 0 <= i < |cs| ==> FromKeptMember(cs[i], us, link, c)
    decreases |us|
  {
    if cs != [] {
      if Keep(us[0], c) && cs[0] == Project(us[0], link) {
        SelectedSound(cs[1..], us[1..], link, c);
        forall i | 0 <= i < |cs| ensures FromKeptMember(cs[i], us, link, c) {
          if i == 0 {
            assert Keep(us[0], c) && cs[0] == Project(us[0], link);
          } else {
            assert cs[i] == cs[1..][i - 1];
            assert FromKeptMember(cs[1..][i - 1], us[1..], link, c);
            var j :| 0 <= j < |us[1..]| && Keep(us[1..][j], c) && cs[i] == Project(us[1..][j], link);
            assert us[1..][j] == us[j + 1];
          }
        }
      } else {
        SelectedSound(cs, us[1..], link, c);
        forall i | 0 <= i < |cs| ensures FromKeptMember(cs[i], us, link, c) {
          assert FromKeptMember(cs[i], us[1..], link, c);
          var j :| 0 <= j < |us[1..]| && Keep(us[1..][j], c) && cs[i] == Project(us[1..][j], link);
          assert us[1..][j] == us[j + 1];
        }
      }
    }
  }

  /** The record of a member that passes the filters has the shape `parse_group` builds (bot.py:189-196). */
  lemma ProjectWellFormed(u: User, link: string, c: Criteria)
    requires Keep(u, c)
    ensures WellFormed(Project(u, link), link, c)
  {
  }

  /**
   * `parse_group`'s guarantees: at most `max_contacts` records, an order-preserving
   * selection of the fetched members (hence of all members), none from a deleted
   * member, none from a bot when bots are excluded, a username whenever the priority
   * demands one, and nothing at all when no chat could be resolved.
   */
  lemma GroupContactsSpec(client: Client, link: string, c: Criteria)
    ensures var r := GroupContacts(client, link, c);
      && (|r| <= c.maxContacts || r == [])
      && (forall i :: 0 <= i < |r| ==> WellFormed(r[i], link, c))
      && (Participants(client, link, c.maxContacts).None? ==> r == [])
      && (Participants(client, link, c.maxContacts).Some? ==>
            var ps := Participants(client, link, c.maxContacts).value;
            && (|ps| <= 2 * c.maxContacts || ps == [])
            && SelectedFrom(r, ps, link, c)
            && (forall i :: 0 <= i < |r| ==> FromKeptMember(r[i], ps, link, c)))
  {
    var r := GroupContacts(client, link, c);
    match Participants(client, link, c.maxContacts)
    case None =>
    case Some(ps) =>
      var kept := Kept(ps, link, c);
      KeptSelected(ps, link, c);
      SelectedPrefix(kept, ps, link, c, |r|);
      assert kept[..|r|] == r;
      SelectedSound(r, ps, link, c);
      forall i | 0 <= i < |r| ensures WellFormed(r[i], link, c) {
        assert FromKeptMember(r[i], ps, link, c);
        var j :| 0 <= j < |ps| && Keep(ps[j], c) && r[i] == Project(ps[j], link);
        ProjectWellFormed(ps[j], link, c);
      }
  }

  /** The fetched members are a prefix of all members, so the selection is one from all members too. */
  lemma GroupContactsFromAllMembers(client: Client, link: string, c: Criteria)
    requires Resolve(client, link).Some? && Resolve(client, link).value.id in client.members
    ensures SelectedFrom(GroupContacts(client, link, c), client.members[Resolve(client, link).value.id], link, c)
  {
    var all := client.members[Resolve(client, link).value.id];
    var ps := Participants(client, link, c.maxContacts).value;
    GroupContactsSpec(client, link, c);
    assert all == ps + all[|ps|..];
    SelectedExtend(GroupContacts(client, link, c), ps, all[|ps|..], link, c);
  }

  /** A broadcast channel without a discussion group, or whose full-channel lookup fails, gives no records. */
  lemma ChannelWithoutDiscussion(client: Client, link: string, c: Criteria)
    requires link in client.byLink && client.byLink[link].broadcast
    requires var id := client.byLink[link].id;
      || id !in client.linkedChat
      || client.linkedChat[id] == None
      || client.linkedChat[id] == Some(0)
      || client.linkedChat[id].value !in client.byId
    ensures GroupContacts(client, link, c) == []
  {
    assert Resolve(client, link) == None;
  }

  /**
   * A broadcast channel with a discussion group is read through that group: the chat
   * looked up by the channel's `linked_chat_id` is resolved, its members are fetched,
   * and the records still carry the channel's link.
   */
  lemma ChannelRedirected(client: Client, link: string, c: Criteria, v: int)
    requires link in client.byLink && client.byLink[link].broadcast
    requires var id := client.byLink[link].id;
      id in client.linkedChat && client.linkedChat[id] == Some(v) && v != 0 && v in client.byId
    ensures Resolve(client, link) == Some(client.byId[v])
    ensures var chat := client.byId[v].id;
      Participants(client, link, c.maxContacts) ==
        (if chat in client.members then Some(Take(client.members[chat], c.maxContacts * 2)) else None)
    ensures forall i :: 0 <= i < |GroupContacts(client, link, c)| ==> GroupContacts(client, link, c)[i].group == link
  {
    GroupContactsSpec(client, link, c);
  }

  /** A chat that is not a broadcast channel is read as it is. */
  lemma GroupUsedUnchanged(client: Client, link: string)
    requires link in client.byLink && !client.byLink[link].broadcast
    ensures Resolve(client, link) == Some(client.byLink[link])
  {
  }

  /** One more member adds its record exactly when it passes the filters. */
  lemma KeptStep(us: seq<User>, i: nat, link: string, c: Criteria)
    requires i < |us|
    ensures Kept(us[..i + 1], link, c) == Kept(us[..i], link, c) + (if Keep(us[i], c) then [Project(us[i], link)] else [])
  {
    KeptAppend(us[..i], [us[i]], link, c);
    assert us[..i + 1] == us[..i] + [us[i]];
  }

  /** Once the records of the first `i` members reach the limit, they are all the loop returns. */
  lemma KeptStop(us: seq<User>, i: nat, link: string, c: Criteria)
    requires i <= |us|
    requires |Kept(us[..i], link, c)| >= c.maxContacts
    requires |Kept(us[..i], link, c)| <= c.maxContacts || Kept(us[..i], link, c) == []
    ensures Kept(us[..i], link, c) == Take(Kept(us, link, c), c.maxContacts)
  {
    KeptAppend(us[..i], us[i..], link, c);
    assert us[..i] + us[i..] == us;
    var first, rest := Kept(us[..i], link, c), Kept(us[i..], link, c);
    assert (first + rest)[..|first|] == first;
  }

  /** The member loop of `parse_group`: filters, projects and stops at the limit. */
  method Collect(participants: seq<User>, link: string, c: Criteria) returns (contacts: seq<Contact>)
    ensures contacts == Take(Kept(participants, link, c), c.maxContacts)
    ensures |contacts| <= c.maxContacts || contacts == []
  {
    contacts := [];
    for i := 0 to |participants|
      invariant contacts == Kept(participants[..i], link, c)
      invariant |contacts| <= c.maxContacts || contacts == []
    {
      if |contacts| >= c.maxContacts {
        KeptStop(participants, i, link, c);
        return;
      }
      var user := participants[i];
      KeptStep(participants, i, link, c);
      if c.excludeBots && user.bot {
        continue;
      }
      if user.deleted {
        continue;
      }
      if c.priority == "username" && !Truthy(user.username) {
        continue;
      }
      var contact := Contact(
        user.id,
        if Truthy(user.username) then "@" + user.username.value else "",
        if Truthy(user.phone) then "+" + user.phone.value else "",
        OrEmpty(user.firstName),
        OrEmpty(user.lastName),
        link);
      contacts := contacts + [contact];
    }
    assert participants[..|participants|] == participants;
  }

  /** `parse_group(group_link, max_contacts, priority, exclude_bots)`. */
  method ParseGroup(client: Client, link: string, maxContacts: int, priority: string, excludeBots: bool)
    returns (contacts: seq<Contact>)
    ensures contacts == GroupContacts(client, link, Criteria(maxContacts, priority, excludeBots))
  {
    contacts := [];
    if link !in client.byLink {
      return;
    }
    var entity := client.byLink[link];
    if entity.broadcast {
      if entity.id !in client.linkedChat {
        return [];
      }
      var linked := client.linkedChat[entity.id];
      if linked.None? || linked.value == 0 {
        return [];
      }
      if linked.value !in client.byId {
        return [];
      }
      entity := client.byId[linked.value];
    }
    if entity.id !in client.members {
      return;
    }
    var participants := Take(client.members[entity.id], maxContacts * 2);
    contacts := Collect(participants, link, Criteria(maxContacts, priority, excludeBots));
  }
}
