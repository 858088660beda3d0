/**
 * The conversations list: one entry per chat partner with a preview of the last
 * message of their room, loaded by one history request per partner whose failure
 * affects that partner only, and a case-insensitive search over usernames.
 */
module Messages {
  import opened Wrappers
  import opened Text
  import opened Lists
  import opened Chat

  /** A chat partner as the partners endpoint lists them. */
  datatype Partner = Partner(id: int, username: string, avatar: string)

  /** `{ ...partner, lastMessage }` */
  datatype Summary = Summary(partner: Partner, lastMessage: string)

  /**
   * What the partners request produced: a list, or a failure (request failed, body
   * not JSON, or not an array, so that `data.map` throws).
   */
  datatype PartnersReply = PartnerList(partners: seq<Partner>) | PartnersFailed

  /** The screen's `partners` and `loading`. */
  datatype Directory = Directory(partners: seq<Summary>, loading: bool)

  /** Shown in place of an empty preview. */
  const Placeholder: string := "Начните диалог"

  /**
   * `Array.isArray(history) ? history[history.length - 1]?.text || "" : ""`: the text
   * of the last message of an array reply, or "" when there is none.
   */
  function LastMessage(reply: HistoryReply): (r: string)
    ensures r != "" ==> reply.Items? && |reply.messages| > 0 && reply.messages[|reply.messages| - 1].text == Some(r)
    ensures reply.Items? && |reply.messages| > 0 && reply.messages[|reply.messages| - 1].text.Some? ==>
              r == reply.messages[|reply.messages| - 1].text.value
    ensures !reply.Items? ==> r == ""
  {
    match reply
    case Items(ms) => if ms != [] && ms[|ms| - 1].text.Some? then ms[|ms| - 1].text.value else ""
    case _ => ""
  }

  /** One entry per partner, in the partners' order, each previewing the room `me` shares with that partner. */
  function Summaries(me: string, partners: seq<Partner>, history: string -> HistoryReply): (r: seq<Summary>)
    ensures |r| == |partners|
    ensures forall i :: 0 <= i < |r| ==> r[i].partner == partners[i]
  {
    seq(|partners|, i requires 0 <= i < |partners| =>
      Summary(partners[i], LastMessage(history(RoomId(me, partners[i].username)))))
  }

  /**
   * Each preview is read from the room the chat screen itself opens: the room of
   * the chat `partner` opens with `me` has the same key.
   */
  lemma PreviewUsesChatRoom(me: string, partners: seq<Partner>, history: string -> HistoryReply, i: int)
    requires 0 <= i < |partners|
    ensures Summaries(me, partners, history)[i].lastMessage == LastMessage(history(RoomId(partners[i].username, me)))
  {
    RoomIdSymmetric(me, partners[i].username);
  }

  /**
   * A failing history request for one room blanks the previews of the partners in
   * that room and changes no other entry.
   */
  lemma FailureIsIsolated(me: string, partners: seq<Partner>, history: string -> HistoryReply,
                          failing: string -> HistoryReply, room: string, i: int)
    requires forall k :: failing(k) == if k == room then Failed else history(k)
    requires 0 <= i < |partners|
    ensures var before, after := Summaries(me, partners, history), Summaries(me, partners, failing);
            if RoomId(me, partners[i].username) == room then after[i] == Summary(partners[i], "")
            else after[i] == before[i]
  {
  }

  /** Before anything is loaded: no partners, loading. */
  function InitialDirectory(): (r: Directory)
    ensures r.partners == [] && r.loading
  {
    Directory([], true)
  }

  /**
   * The effect that loads the list. Without a username it returns at once: nothing
   * is fetched and nothing changes, not even `loading`. Otherwise a list replaces
   * the partners, a failure keeps them, and loading ends either way.
   */
  function LoadDirectory(state: Directory, username: Option<string>, reply: PartnersReply,
                         history: string -> HistoryReply): (r: Directory)
    ensures username.None? || username == Some("") ==> r == state
    ensures username.Some? && username.value != "" ==> !r.loading
    ensures username.Some? && username.value != "" && reply.PartnersFailed? ==> r.partners == state.partners
    ensures username.Some? && username.value != "" && reply.PartnerList? ==>
              r.partners == Summaries(username.value, reply.partners, history)
  {
    if username.None? || username.value == "" then state
    else match reply
      case PartnerList(ps) => Directory(Summaries(username.value, ps, history), false)
      case PartnersFailed => state.(loading := false)
  }

  /** A loaded list keeps the partners' order and fields, adding each one's preview. */
  lemma LoadedListFollowsPartners(state: Directory, me: string, ps: seq<Partner>, history: string -> HistoryReply)
    requires me != ""
    ensures var r := LoadDirectory(state, Some(me), PartnerList(ps), history);
            |r.partners| == |ps| &&
            forall i :: 0 <= i < |ps| ==>
              r.partners[i] == Summary(ps[i], LastMessage(history(RoomId(me, ps[i].username))))
  {
  }

  /** The entries whose username contains the search text, ignoring case, in list order. */
  function Visible(partners: seq<Summary>, search: string): (r: seq<Summary>)
    ensures forall s :: s in r <==> s in partners && MatchesQuery(s.partner.username, search)
    ensures forall s :: multiset(r)[s] == if MatchesQuery(s.partner.username, search) then multiset(partners)[s] else 0
    ensures IsSubsequence(r, partners)
  {
    var matches := (s: Summary) => MatchesQuery(s.partner.username, search);
    FilterCounts(partners, matches);
    Filter(partners, matches)
  }

  /** An empty search shows the whole list. */
  lemma EmptySearchShowsAll(partners: seq<Summary>)
    ensures Visible(partners, "") == partners
  {
    forall i | 0 <= i < |partners| ensures MatchesQuery(partners[i].partner.username, "") {
      EmptyQueryMatches(partners[i].partner.username);
    }
    FilterKeepsAll(partners, (s: Summary) => MatchesQuery(s.partner.username, ""));
  }

  /** `item.lastMessage || "Начните диалог"` */
  function PreviewText(s: Summary): (r: string)
    ensures r != ""
    ensures s.lastMessage != "" ==> r == s.lastMessage
    ensures s.lastMessage == "" ==> r == Placeholder
  {
    if s.lastMessage == "" then Placeholder else s.lastMessage
  }

  /** An empty history reply is shown as the placeholder, never as an empty line. */
  lemma EmptyHistoryShowsPlaceholder(partner: Partner, reply: HistoryReply)
    requires !reply.Items? || reply.messages == []
    ensures PreviewText(Summary(partner, LastMessage(reply))) == Placeholder
  {
  }

  /** Without a logged-in username the list never leaves its initial state: no partners, still loading. */
  lemma NoUserStaysLoading(username: Option<string>, reply: PartnersReply, history: string -> HistoryReply)
    requires !Present(username)
    ensures var r := LoadDirectory(InitialDirectory(), username, reply, history);
            r.partners == [] && r.loading
  {
  }
}
