/**
 * The chat history of one client (components/ChatRoom.tsx): an ordered list of
 * messages changed by four events — an optimistic local send, the merge of a
 * background translation result, a push-delivered INSERT notification and the
 * three-second poll. Each event is a method of `ChatRoom`; each is proved
 * against a pure function on the history, and the properties of those
 * functions are lemmas.
 */
module Chat {
  import opened Common

  /** A row of the `messages` table, as the client holds it. */
  datatype Message = Message(
    id: int,
    content: string,
    original_language: string,
    translations: map<string, string>,
    user_name: string,
    created_at: string)

  /** The form in which both remote paths compare author names: trimmed, then lower-cased. */
  function NameKey(name: string): string {
    Lower(Trim(name))
  }

  /** The origin filter: the message was written under the local user's name. */
  predicate IsFromMe(m: Message, user: Option<User>) {
    user.Some? && NameKey(m.user_name) == NameKey(user.value.name)
  }

  /** The push path's duplicate check: only the last message of the history is consulted. */
  predicate IsDuplicateOfLast(history: seq<Message>, m: Message) {
    |history| > 0 &&
    var last := history[|history| - 1];
    last.id == m.id || (last.content == m.content && last.user_name == m.user_name)
  }

  function Ids(history: seq<Message>): set<int> {
    set m | m in history :: m.id
  }

  /** The message a send appends before any translation is known. */
  function Optimistic(input: string, user: User, tempId: int, createdAt: string): Message {
    Message(tempId, input, user.preferredLanguage, map[], user.name, createdAt)
  }

  /** One message after the translation result for `tempId` arrived. */
  function Attached(m: Message, tempId: int, translations: map<string, string>): Message {
    if m.id == tempId then m.(translations := translations) else m
  }

  /** The history after a translation result for `tempId` is merged in. */
  function AttachTranslations(history: seq<Message>, tempId: int, translations: map<string, string>): seq<Message>
  {
    if history == [] then []
    else [Attached(history[0], tempId, translations)] + AttachTranslations(history[1..], tempId, translations)
  }

  /** The history after a push notification carrying `m`. */
  function AfterPush(history: seq<Message>, user: Option<User>, m: Message): (r: seq<Message>)
    ensures r == history <==> IsFromMe(m, user) || IsDuplicateOfLast(history, m)
    ensures r != history ==> r == history + [m]
  {
    if IsFromMe(m, user) || IsDuplicateOfLast(history, m) then history else history + [m]
  }

  /** The poll filter: messages not written by the local user whose id is not in `known`. */
  predicate PollKeeps(m: Message, user: Option<User>, known: set<int>) {
    !IsFromMe(m, user) && m.id !in known
  }

  /** The poll filter as a function value, so that every use of it names the same function. */
  function Keeps(user: Option<User>, known: set<int>): Message -> bool {
    m => PollKeeps(m, user, known)
  }

  function Foreign(fetched: seq<Message>, user: Option<User>, known: set<int>): seq<Message>
  {
    Filter(fetched, Keeps(user, known))
  }

  /** The history after a poll returned `fetched`; the known ids are taken once, before filtering. */
  function AfterPoll(history: seq<Message>, user: Option<User>, fetched: seq<Message>): seq<Message>
  {
    if history == [] then history else history + Foreign(fetched, user, Ids(history))
  }

  // ---------------------------------------------------------------------------
  // Properties of the transitions

  /** Merging a translation replaces only the `translations` of the messages with that id. */
  lemma {:induction false} AttachTranslationsSpec(history: seq<Message>, tempId: int, translations: map<string, string>)
    ensures |AttachTranslations(history, tempId, translations)| == |history|
    ensures forall i :: 0 <= i < |history| ==>
      AttachTranslations(history, tempId, translations)[i] ==
        if history[i].id == tempId then history[i].(translations := translations) else history[i]
  {
    if history != [] {
      AttachTranslationsSpec(history[1..], tempId, translations);
      var r := AttachTranslations(history, tempId, translations);
      forall i | 0 <= i < |history|
        ensures r[i] == if history[i].id == tempId then history[i].(translations := translations) else history[i]
      {
        if i > 0 {
          assert r[i] == AttachTranslations(history[1..], tempId, translations)[i - 1];
        }
      }
    }
  }

  /** A poll never removes or reorders, and never appends an id the history already held. */
  lemma PollSpec(history: seq<Message>, user: Option<User>, fetched: seq<Message>)
    ensures history == [] ==> AfterPoll(history, user, fetched) == history
    ensures |AfterPoll(history, user, fetched)| >= |history|
    ensures AfterPoll(history, user, fetched)[..|history|] == history
    ensures history != [] ==> forall m :: m in AfterPoll(history, user, fetched)[|history|..] <==>
      m in fetched && !IsFromMe(m, user) && m.id !in Ids(history)
  {
    if history != [] {
      FilterMembers(fetched, Keeps(user, Ids(history)));
      assert AfterPoll(history, user, fetched)[|history|..] == Foreign(fetched, user, Ids(history));
    }
  }

  /** The local user's own messages never come back through either remote path. */
  lemma OwnEchoIgnored(history: seq<Message>, user: Option<User>, m: Message, fetched: seq<Message>)
    requires IsFromMe(m, user)
    ensures AfterPush(history, user, m) == history
    ensures m !in AfterPoll(history, user, fetched)[|history|..]
  {
    PollSpec(history, user, fetched);
  }

  /**
   * A message taken in by the push path is not appended again by a later
   * poll, whatever else the poll returns: the pushed history stays a prefix,
   * and nothing the poll appends carries the pushed message's id.
   */
  lemma PushThenPollOnce(history: seq<Message>, user: Option<User>, m: Message, fetched: seq<Message>)
    requires AfterPush(history, user, m) != history
    ensures AfterPoll(AfterPush(history, user, m), user, fetched)[..|history| + 1] == history + [m]
    ensures forall f :: f in AfterPoll(AfterPush(history, user, m), user, fetched)[|history| + 1..] ==> f.id != m.id
  {
    var h := history + [m];
    assert m.id in Ids(h);
    PollSpec(h, user, fetched);
  }

  /** A push never lets through a message equal in id, or in content and author, to the last one. */
  lemma PushLocalNoDuplicate(history: seq<Message>, user: Option<User>, m: Message)
    requires |history| > 0 && AfterPush(history, user, m) != history
    ensures var r := AfterPush(history, user, m);
      r[|r| - 2].id != r[|r| - 1].id &&
      (r[|r| - 2].content != r[|r| - 1].content || r[|r| - 2].user_name != r[|r| - 1].user_name)
  {
  }

  // ---------------------------------------------------------------------------
  // The loops of the handlers

  /** `prev.map(m => m.id === tempId ? { ...m, translations } : m)` */
  method AttachAll(history: seq<Message>, tempId: int, translations: map<string, string>) returns (updated: seq<Message>)
    ensures updated == AttachTranslations(history, tempId, translations)
  {
    updated := [];
    for i := 0 to |history|
      invariant |updated| == i
      invariant forall j :: 0 <= j < i ==> updated[j] == Attached(history[j], tempId, translations)
    {
      updated := updated + [Attached(history[i], tempId, translations)];
    }
    AttachTranslationsSpec(history, tempId, translations);
  }

  /** The poll's filter loop over the fetched batch; `known` is the id set taken before it starts. */
  method CollectForeign(fetched: seq<Message>, user: Option<User>, known: set<int>) returns (foreign: seq<Message>)
    ensures foreign == Foreign(fetched, user, known)
  {
    foreign := [];
    var i := 0;
    while i < |fetched|
      invariant 0 <= i <= |fetched|
      invariant foreign == Foreign(fetched[..i], user, known)
    {
      var f := fetched[i];
      TakeSnoc(fetched, i);
      FilterSnoc(fetched[..i], f, Keeps(user, known));
      if PollKeeps(f, user, known) {
        foreign := foreign + [f];
      }
      i := i + 1;
    }
    assert fetched[..i] == fetched;
  }

  // ---------------------------------------------------------------------------
  // The component's state

  class ChatRoom {
    var messages: seq<Message>
    var input: string

    constructor ()
      ensures messages == [] && input == ""
    {
      messages := [];
      input := "";
    }

    /** The initial fetch of the whole table replaces the history when rows came back. */
    method Load(data: Option<seq<Message>>)
      modifies this`messages
      ensures messages == if data.Some? then data.value else old(messages)
    {
      if data.Some? {
        messages := data.value;
      }
    }

    /** Typing in the message box. */
    method SetInput(text: string)
      modifies this`input
      ensures input == text
    {
      input := text;
    }

    /**
     * The optimistic part of a send: a blank input or a missing user changes
     * nothing; otherwise the input is cleared and one message, stamped with
     * `now` as its temporary id, is appended. The message is returned so that
     * its translation can be merged later.
     */
    method Send(user: Option<User>, now: int, createdAt: string) returns (sent: Option<Message>)
      modifies this
      ensures sent.Some? <==> !IsBlank(old(input)) && user.Some?
      ensures sent.None? ==> messages == old(messages) && input == old(input)
      ensures sent.Some? ==>
        sent.value == Optimistic(old(input), user.value, now, createdAt) &&
        messages == old(messages) + [sent.value] && input == ""
    {
      if IsBlank(input) || user.None? {
        return None;
      }
      var m := Optimistic(input, user.value, now, createdAt);
      input := "";
      messages := messages + [m];
      sent := Some(m);
    }

    /** The completion of the background translation of the message sent with `tempId`. */
    method ApplyTranslations(tempId: int, translations: map<string, string>)
      modifies this`messages
      ensures messages == AttachTranslations(old(messages), tempId, translations)
    {
      messages := AttachAll(messages, tempId, translations);
    }

    /** The realtime INSERT handler: origin filter, then the last-message duplicate check. */
    method ReceivePush(user: Option<User>, m: Message)
      modifies this`messages
      ensures messages == AfterPush(old(messages), user, m)
    {
      if IsFromMe(m, user) {
        return;
      }
      var n := |messages|;
      if n > 0 && (messages[n - 1].id == m.id ||
                   (messages[n - 1].content == m.content && messages[n - 1].user_name == m.user_name)) {
        return;
      }
      messages := messages + [m];
    }

    /** One tick of the poll: `fetched` is the batch the server returned, newest-last. */
    method Poll(user: Option<User>, fetched: seq<Message>)
      modifies this`messages
      ensures messages == AfterPoll(old(messages), user, fetched)
    {
      if |messages| == 0 {
        return;
      }
      var foreign := CollectForeign(fetched, user, Ids(messages));
      if |foreign| > 0 {
        messages := messages + foreign;
      } else {
        assert messages + foreign == messages;
      }
    }
  }
}
