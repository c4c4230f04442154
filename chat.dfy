/**
 * The ChatMessage record shared by every service, the user-turn count the
 * conversation state machine relies on, and the JSON codec of a transcript,
 * which is an outside library here: a function that may fail.
 */
module Chat {
  import opened Wrappers
  import opened Text

  /** One transcript entry: the speaker tag ("AI" or "User") and the text, which Java lets be null. */
  datatype ChatMessage = ChatMessage(speaker: string, message: Option<string>)

  const USER: string := "User"
  const AI: string := "AI"

  /** Jackson's writeValueAsString on a transcript: None when it throws. */
  type Encoder = seq<ChatMessage> -> Option<string>

  /** Jackson's readValue into a transcript: None when it throws. */
  type Decoder = string -> Option<seq<ChatMessage>>

  /** `"User".equalsIgnoreCase(m.speaker())`. */
  predicate IsUserTurn(m: ChatMessage) {
    EqualsIgnoreCase(USER, m.speaker)
  }

  /** `"AI".equalsIgnoreCase(m.speaker())`. */
  predicate IsAiTurn(m: ChatMessage) {
    EqualsIgnoreCase(AI, m.speaker)
  }

  /** The number of user turns in a transcript (the stream filter-count). */
  function UserTurns(h: seq<ChatMessage>): (n: nat)
    ensures n <= |h|
  {
    if h == [] then 0 else (if IsUserTurn(h[0]) then 1 else 0) + UserTurns(h[1..])
  }

  lemma {:induction false} UserTurnsAppend(h: seq<ChatMessage>, m: ChatMessage)
    ensures UserTurns(h + [m]) == UserTurns(h) + (if IsUserTurn(m) then 1 else 0)
  {
    if h != [] {
      assert (h + [m])[1..] == h[1..] + [m];
      UserTurnsAppend(h[1..], m);
    }
  }

  /** An AI message is never counted as a user turn. */
  lemma AiIsNotUser(m: ChatMessage)
    requires m.speaker == AI
    ensures !IsUserTurn(m)
  {
    assert ToLowerAscii(USER[0]) != ToLowerAscii(m.speaker[0]);
  }

  /** The texts of the user turns, in order (filter then map). */
  function UserMessages(h: seq<ChatMessage>): (r: seq<string>)
    ensures |r| == UserTurns(h)
  {
    if h == [] then []
    else Kept(h[0]) + UserMessages(h[1..])
  }

  /** The texts kept from one message: its text when it is a User turn, nothing otherwise. */
  function Kept(m: ChatMessage): seq<string> {
    if IsUserTurn(m) then [Shown(m.message)] else []
  }

  /** Filtering then mapping is a homomorphism: the texts of a + b are those of a, then those of b. */
  lemma {:induction false} UserMessagesAppend(a: seq<ChatMessage>, b: seq<ChatMessage>)
    ensures UserMessages(a + b) == UserMessages(a) + UserMessages(b)
  {
    if a == [] {
      assert a + b == b;
    } else {
      assert (a + b)[0] == a[0];
      assert (a + b)[1..] == a[1..] + b;
      UserMessagesAppend(a[1..], b);
    }
  }

  /**
   * Appending one message adds its text exactly when it is a User turn
   * (case-insensitively): only User texts are kept, in transcript order.
   */
  lemma UserMessagesSnoc(h: seq<ChatMessage>, m: ChatMessage)
    ensures UserMessages(h + [m]) == UserMessages(h) + Kept(m)
  {
    UserMessagesAppend(h, [m]);
    assert UserMessages([m]) == Kept(m) + UserMessages([]);
  }

  /** The texts are exactly the User turns' texts, in order. */
  lemma {:induction false} UserMessagesPointwise(h: seq<ChatMessage>)
    ensures forall j :: 0 <= j < |UserMessages(h)| ==>
      exists i :: 0 <= i < |h| && IsUserTurn(h[i]) && UserMessages(h)[j] == Shown(h[i].message)
  {
    if h != [] {
      UserMessagesPointwise(h[1..]);
      var r := UserMessages(h);
      var k := Kept(h[0]);
      assert r == k + UserMessages(h[1..]);
      forall j | 0 <= j < |r|
        ensures exists i :: 0 <= i < |h| && IsUserTurn(h[i]) && r[j] == Shown(h[i].message)
      {
        if j < |k| {
          assert IsUserTurn(h[0]) && r[j] == Shown(h[0].message);
          assert 0 <= 0 < |h| && IsUserTurn(h[0]) && r[j] == Shown(h[0].message);
        } else {
          var i :| 0 <= i < |h[1..]| && IsUserTurn(h[1..][i]) && UserMessages(h[1..])[j - |k|] == Shown(h[1..][i].message);
          assert h[i + 1] == h[1..][i] && r[j] == UserMessages(h[1..])[j - |k|];
          assert 0 <= i + 1 < |h| && IsUserTurn(h[i + 1]) && r[j] == Shown(h[i + 1].message);
        }
      }
      assert forall j :: 0 <= j < |r| ==> exists i :: 0 <= i < |h| && IsUserTurn(h[i]) && r[j] == Shown(h[i].message);
    } else {
      assert UserMessages(h) == [];
    }
  }

  /** A transcript without any User turn contributes no text. */
  lemma NoUserTurnsNoText(h: seq<ChatMessage>)
    requires UserTurns(h) == 0
    ensures Join(UserMessages(h), "\n") == ""
  {
    assert |UserMessages(h)| == 0;
  }

  /**
   * The transcript stored in a call_log row, as the analysis services read
   * it: None for a null or empty column and for text that does not parse.
   */
  function ReadTranscript(callData: Option<string>, decode: Decoder): (r: Option<seq<ChatMessage>>)
    ensures callData.None? || callData.value == "" ==> r.None?
    ensures callData.Some? && callData.value != "" ==> r == decode(callData.value)
  {
    if callData.None? || callData.value == "" then None else decode(callData.value)
  }
}
