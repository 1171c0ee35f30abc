/**
 * reply_flow/prompt_assembler.py: the conversation as chat messages, so that the two sides speak in
 * turn, the other side first and last.
 */
module ChatMessages {
  import opened Common
  import opened Text

  datatype Role = User | Assistant

  /** `parts` are joined by line breaks when the message is sent. */
  datatype Message = Message(role: Role, parts: seq<string>)

  /** One turn of the history: hers, or someone's by name. */
  datatype Turn = Turn(hers: bool, speaker: string, content: string)

  function RoleOf(t: Turn): Role {
    if t.hers then Assistant else User
  }

  /** In a group each line says whose it is. */
  function TextOf(t: Turn, group: bool): string {
    if group && !t.hers then t.speaker + "：" + t.content else t.content
  }

  /** In a group everybody but her is named before what they say; elsewhere nobody is. */
  lemma OthersAreNamed(t: Turn, group: bool)
    ensures t.hers || !group ==> TextOf(t, group) == t.content
    ensures !t.hers && group ==> TextOf(t, group) == t.speaker + "：" + t.content
  {}

  /** What the history says: blank turns say nothing, and hers count only after someone else's. */
  function Spoken(turns: seq<Turn>, group: bool): seq<string> {
    if turns == [] then []
    else
      var front, last := Spoken(turns[..|turns| - 1], group), turns[|turns| - 1];
      if Strip(last.content) == "" || (last.hers && front == []) then front else front + [TextOf(last, group)]
  }

  /** All parts of some messages, in order. */
  function Parts(chat: seq<Message>): seq<string> {
    if chat == [] then [] else Parts(chat[..|chat| - 1]) + chat[|chat| - 1].parts
  }

  predicate Alternates(chat: seq<Message>) {
    && (forall i :: 0 <= i < |chat| ==> chat[i].parts != [])
    && forall i :: 0 < i < |chat| ==> chat[i].role != chat[i - 1].role
  }

  /** The messages without a leading one of hers. */
  function FromUser(chat: seq<Message>): seq<Message> {
    if chat != [] && chat[0].role == Assistant then chat[1..] else chat
  }

  lemma PartsSnoc(chat: seq<Message>, m: Message)
    ensures Parts(chat + [m]) == Parts(chat) + m.parts
  {
    assert (chat + [m])[..|chat|] == chat;
  }

  /** A part more, in the last message or in one of its own. */
  function WithPart(chat: seq<Message>, role: Role, part: string): seq<Message> {
    var n := |chat| - 1;
    if chat != [] && chat[n].role == role then chat[..n] + [Message(role, chat[n].parts + [part])]
    else chat + [Message(role, [part])]
  }

  lemma WithPartAlternates(chat: seq<Message>, role: Role, part: string)
    requires Alternates(chat)
    ensures Alternates(WithPart(chat, role, part))
  {}

  lemma WithPartSays(chat: seq<Message>, role: Role, part: string)
    ensures Parts(WithPart(chat, role, part)) == Parts(chat) + [part]
  {
    hide Parts;
    var n := |chat| - 1;
    if chat != [] && chat[n].role == role {
      assert chat == chat[..n] + [chat[n]];
      PartsSnoc(chat[..n], chat[n]);
      PartsSnoc(chat[..n], Message(role, chat[n].parts + [part]));
      ConcatAssociates(Parts(chat[..n]), chat[n].parts, [part]);
    } else {
      PartsSnoc(chat, Message(role, [part]));
    }
  }

  lemma WithPartFromUser(chat: seq<Message>, role: Role, part: string)
    requires Alternates(chat)
    ensures var after := FromUser(WithPart(chat, role, part));
            after == if role == Assistant && FromUser(chat) == [] then [] else WithPart(FromUser(chat), role, part)
  {
    var n := |chat| - 1;
    if chat != [] && chat[0].role == Assistant {
      if n == 0 {
        assert role == User ==> (chat + [Message(role, [part])])[1..] == [Message(role, [part])];
      } else {
        assert chat[1..][..n - 1] == chat[..n][1..];
      }
    }
  }

  lemma {:induction false} SomePart(chat: seq<Message>)
    requires Alternates(chat)
    ensures Parts(chat) == [] <==> chat == []
  {}

  lemma TailAlternates(chat: seq<Message>)
    requires Alternates(chat)
    ensures Alternates(FromUser(chat))
  {}

  /** The two sides in turn, the other side first and last, and all that was said in order. */
  predicate WellFormed(chat: seq<Message>) {
    |chat| % 2 == 1 && forall i :: 0 <= i < |chat| ==> chat[i].role == if i % 2 == 0 then User else Assistant
  }

  lemma {:induction false} AlternatesFromUser(chat: seq<Message>, i: nat)
    requires Alternates(chat) && i < |chat| && chat[0].role == User
    ensures chat[i].role == if i % 2 == 0 then User else Assistant
  {
    if i > 0 {
      AlternatesFromUser(chat, i - 1);
    }
  }

  /** Where the loop is: what the messages say so far, hers at the start left out. */
  predicate Says(chat: seq<Message>, turns: seq<Turn>, group: bool) {
    Alternates(chat) && Parts(FromUser(chat)) == Spoken(turns, group)
  }

  lemma OneTurnMore(chat: seq<Message>, turns: seq<Turn>, turn: Turn, group: bool)
    requires Says(chat, turns, group) && Strip(turn.content) != ""
    ensures Says(WithPart(chat, RoleOf(turn), TextOf(turn, group)), turns + [turn], group)
  {
    assert (turns + [turn])[..|turns|] == turns;
    var role, text := RoleOf(turn), TextOf(turn, group);
    assert Spoken(turns + [turn], group)
        == if turn.hers && Spoken(turns, group) == [] then [] else Spoken(turns, group) + [text];
    hide Parts, Spoken, Strip, TextOf;
    WithPartAlternates(chat, role, text);
    WithPartFromUser(chat, role, text);
    TailAlternates(chat);
    SomePart(FromUser(chat));
    WithPartSays(FromUser(chat), role, text);
    NoParts();
    hide Alternates, FromUser, WithPart;
  }

  lemma NoParts()
    ensures Parts([]) == []
  {}

  lemma BlankTurn(chat: seq<Message>, turns: seq<Turn>, turn: Turn, group: bool)
    requires Says(chat, turns, group) && Strip(turn.content) == ""
    ensures Says(chat, turns + [turn], group)
  {
    assert (turns + [turn])[..|turns|] == turns;
  }

  lemma Closes(chat: seq<Message>, turns: seq<Turn>, group: bool, latest: string)
    requires Says(chat, turns, group)
    ensures var all := WithPart(FromUser(chat), User, latest);
            WellFormed(all) && Parts(all) == Spoken(turns, group) + [latest]
  {
    hide Parts, Spoken;
    TailAlternates(chat);
    WithPartAlternates(FromUser(chat), User, latest);
    WithPartSays(FromUser(chat), User, latest);
    StartsWithUser(chat);
    EndsWithUser(WithPart(FromUser(chat), User, latest));
  }

  lemma StartsWithUser(chat: seq<Message>)
    requires Alternates(chat)
    ensures FromUser(chat) != [] ==> FromUser(chat)[0].role == User
  {}

  method AddPart(before: seq<Message>, role: Role, part: string) returns (chat: seq<Message>)
    ensures chat == WithPart(before, role, part)
  {
    chat := before;
    if chat != [] && chat[|chat| - 1].role == role {
      chat := chat[..|chat| - 1] + [Message(role, chat[|chat| - 1].parts + [part])];
    } else {
      chat := chat + [Message(role, [part])];
    }
  }

  /** Some providers reject a conversation that she begins. */
  method DropHers(before: seq<Message>, ghost turns: seq<Turn>, group: bool) returns (chat: seq<Message>)
    requires Says(before, turns, group)
    ensures chat == FromUser(before)
  {
    hide Parts, Spoken;
    chat := before;
    StartsWithUser(before);
    while chat != [] && chat[0].role == Assistant
      invariant chat == before || chat == FromUser(before)
      decreases |chat|
    {
      chat := chat[1..];
    }
  }

  /** The messages after the system's: the two sides in turn, and all that was said, in order. */
  method BuildChatMessages(turns: seq<Turn>, group: bool, latest: string) returns (chat: seq<Message>)
    ensures WellFormed(chat)
    ensures Parts(chat) == Spoken(turns, group) + [latest]
  {
    hide Parts, Spoken, Strip, Alternates, Says, WithPart;
    chat := [];
    NothingSaid(turns[..0], group);
    for i := 0 to |turns|
      invariant Says(chat, turns[..i], group)
    {
      assert turns[..i + 1] == turns[..i] + [turns[i]];
      var turn := turns[i];
      if Strip(turn.content) == "" {
        BlankTurn(chat, turns[..i], turn, group);
        continue;
      }
      OneTurnMore(chat, turns[..i], turn, group);
      chat := AddPart(chat, RoleOf(turn), TextOf(turn, group));
    }
    assert turns[..|turns|] == turns;
    Closes(chat, turns, group, latest);
    chat := DropHers(chat, turns, group);
    chat := AddPart(chat, User, latest);
  }

  lemma NothingSaid(turns: seq<Turn>, group: bool)
    requires turns == []
    ensures Says([], turns, group)
  {}

  lemma EndsWithUser(chat: seq<Message>)
    requires Alternates(chat) && chat != [] && chat[0].role == User && chat[|chat| - 1].role == User
    ensures WellFormed(chat)
  {
    forall i | 0 <= i < |chat|
      ensures chat[i].role == if i % 2 == 0 then User else Assistant
    {
      AlternatesFromUser(chat, i);
    }
  }
}
