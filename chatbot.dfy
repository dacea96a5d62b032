/**
 * frontend/src/components/Chatbot.jsx: the assistant's canned replies, chosen
 * by the first keyword rule that the lower-cased question matches, and the
 * message list that a send extends.  The clock (`Date.now()`) is a parameter;
 * the one-second delay before the reply is the split between `HandleSend` and
 * `Reply`.
 */
module Chatbot {
  import Validators

  /** `toLowerCase` on the ASCII letters. */
  function LowerChar(c: char): (r: char)
    ensures !('A' <= r <= 'Z')
    ensures !('A' <= c <= 'Z') ==> r == c
  {
    if 'A' <= c <= 'Z' then (c as int + 32) as char else c
  }

  function ToLower(s: string): (r: string)
    ensures |r| == |s|
    ensures forall i :: 0 <= i < |s| ==> r[i] == LowerChar(s[i])
  {
    seq(|s|, i requires 0 <= i < |s| => LowerChar(s[i]))
  }

  /** No upper-case ASCII letter. */
  predicate IsLower(s: string) {
    forall i :: 0 <= i < |s| ==> !('A' <= s[i] <= 'Z')
  }

  /** Lower-casing lower-case text changes nothing, and lower-casing twice is
      lower-casing once. */
  lemma ToLowerLaws(s: string)
    ensures IsLower(s) ==> ToLower(s) == s
    ensures IsLower(ToLower(s)) && ToLower(ToLower(s)) == ToLower(s)
  {
  }

  /** `w` occurs in `s` at position `i`, compared from the `j`-th character on. */
  function MatchAt(s: string, w: string, i: nat, j: nat): bool
    requires i + |w| <= |s| && j <= |w|
    decreases |w| - j
  {
    j == |w| || (s[i + j] == w[j] && MatchAt(s, w, i, j + 1))
  }

  /** `MatchAt` is the slice comparison. */
  lemma {:induction false} MatchAtSlice(s: string, w: string, i: nat, j: nat)
    requires i + |w| <= |s| && j <= |w|
    ensures MatchAt(s, w, i, j) <==> s[i + j..i + |w|] == w[j..]
    decreases |w| - j
  {
    if j < |w| {
      MatchAtSlice(s, w, i, j + 1);
      assert s[i + j..i + |w|] == [s[i + j]] + s[i + j + 1..i + |w|];
      assert w[j..] == [w[j]] + w[j + 1..];
    }
  }

  /** `w` occurs in `s` at some position from `i` on. */
  function ContainsFrom(s: string, w: string, i: nat): bool
    decreases |s| - i
  {
    if i + |w| > |s| then false else MatchAt(s, w, i, 0) || ContainsFrom(s, w, i + 1)
  }

  /** `s.includes(w)`. */
  predicate Contains(s: string, w: string) {
    ContainsFrom(s, w, 0)
  }

  /** `s` has `w` at position `i`. */
  predicate Occurs(s: string, w: string, i: int) {
    0 <= i && i + |w| <= |s| && s[i..i + |w|] == w
  }

  lemma {:induction false} ContainsFromOccurs(s: string, w: string, i: nat)
    ensures ContainsFrom(s, w, i) <==> exists k :: i <= k && Occurs(s, w, k)
    decreases |s| - i
  {
    if i + |w| <= |s| {
      MatchAtSlice(s, w, i, 0);
      ContainsFromOccurs(s, w, i + 1);
      if Occurs(s, w, i) {
        assert i <= i && Occurs(s, w, i);
      }
      if exists k :: i <= k && Occurs(s, w, k) {
        var k :| i <= k && Occurs(s, w, k);
        if k != i {
          assert i + 1 <= k && Occurs(s, w, k);
        }
      }
    }
  }

  /** `includes` finds exactly the positions where the word occurs. */
  lemma ContainsOccurs(s: string, w: string)
    ensures Contains(s, w) <==> exists k :: Occurs(s, w, k)
  {
    ContainsFromOccurs(s, w, 0);
  }

  /** A word inside another one is found by `includes` wherever the outer one is. */
  lemma ContainsInside(s: string, outer: string, w: string, at: nat)
    requires at + |w| <= |outer| && outer[at..at + |w|] == w
    requires Contains(s, outer)
    ensures Contains(s, w)
  {
    ContainsOccurs(s, outer);
    var k :| Occurs(s, outer, k);
    var window := s[k..k + |outer|];
    forall t | 0 <= t < |w| ensures s[k + at..k + at + |w|][t] == w[t] {
      assert s[k + at..k + at + |w|][t] == window[at + t] == outer[at..at + |w|][t];
    }
    assert s[k + at..k + at + |w|] == w;
    assert Occurs(s, w, k + at);
    ContainsOccurs(s, w);
  }

  /** A character that can continue a word. */
  predicate WordChar(c: char) {
    'a' <= c <= 'z' || 'A' <= c <= 'Z' || '0' <= c <= '9'
  }

  /** `w` occurs from position `i` on with no word character on either side. */
  function WordFrom(s: string, w: string, i: nat): bool
    decreases |s| - i
  {
    if i + |w| > |s| then false
    else (MatchAt(s, w, i, 0) && (i == 0 || !WordChar(s[i - 1])) && (i + |w| == |s| || !WordChar(s[i + |w|])))
         || WordFrom(s, w, i + 1)
  }

  /** A whole-word occurrence is an occurrence. */
  lemma {:induction false} WordFromContains(s: string, w: string, i: nat)
    ensures WordFrom(s, w, i) ==> ContainsFrom(s, w, i)
    decreases |s| - i
  {
    if i + |w| <= |s| {
      WordFromContains(s, w, i + 1);
    }
  }

  /** How a rule tests a keyword: anywhere in the question, or as a whole word. */
  datatype Keyword = Anywhere(text: string) | WholeWord(word: string)

  predicate Hits(query: string, k: Keyword) {
    match k
    case Anywhere(w) => Contains(query, w)
    case WholeWord(w) => WordFrom(query, w, 0)
  }

  /** `if (q.includes(a) || q.includes(b)) return reply`. */
  datatype Rule = Rule(first: Keyword, second: Keyword, reply: string)

  predicate Matches(query: string, r: Rule) {
    Hits(query, r.first) || Hits(query, r.second)
  }

  const GreetingReply: string := "Hello! Looking for something specific?"
  const OrdersReply: string := "You can track your orders in the 'My Orders' section of your profile."
  const ReturnsReply: string := "We have a 30-day return policy. Please contact support@metazone.com for assistance."
  const ShippingReply: string := "Shipping is free for all orders! Delivery usually takes 3-5 business days."
  const DiscountReply: string := "Check our homepage for the latest discount codes! Or refer a friend to earn credits."
  const ProductReply: string := "You can search for products using the search bar at the top of the page."
  const FallbackReply: string := "I'm not sure about that. Try asking about orders, shipping, or returns!"

  /** The rules after the greeting, in the order they are tested. */
  const TopicRules: seq<Rule> := [
    Rule(Anywhere("order"), Anywhere("track"), OrdersReply),
    Rule(Anywhere("return"), Anywhere("refund"), ReturnsReply),
    Rule(Anywhere("shipping"), Anywhere("delivery"), ShippingReply),
    Rule(Anywhere("discount"), Anywhere("coupon"), DiscountReply),
    Rule(Anywhere("product"), Anywhere("stock"), ProductReply)
  ]

  /** The rules as written: the greeting matches `hi` anywhere. */
  const WrittenRules: seq<Rule> := [Rule(Anywhere("hello"), Anywhere("hi"), GreetingReply)] + TopicRules

  /** The rules, corrected: the greeting matches `hi` only as a word. */
  const Rules: seq<Rule> := [Rule(Anywhere("hello"), WholeWord("hi"), GreetingReply)] + TopicRules

  /** The reply of the first rule that matches, or the fallback. */
  function Respond(rules: seq<Rule>, query: string): (r: string)
    ensures (forall k :: 0 <= k < |rules| ==> !Matches(query, rules[k])) ==> r == FallbackReply
    ensures forall k :: (0 <= k < |rules| && Matches(query, rules[k]) &&
                         (forall j :: 0 <= j < k ==> !Matches(query, rules[j]))) ==> r == rules[k].reply
  {
    if rules == [] then FallbackReply
    else if Matches(query, rules[0]) then rules[0].reply
    else
      var r := Respond(rules[1..], query);
      assert forall k :: 1 <= k < |rules| ==> rules[k] == rules[1..][k - 1];
      r
  }

  /** getBotResponse as written. */
  function BotResponseAsWritten(query: string): string {
    Respond(WrittenRules, ToLower(query))
  }

  /** getBotResponse with the greeting rule corrected. */
  function BotResponse(query: string): string {
    Respond(Rules, ToLower(query))
  }

  /** As written, any question that mentions shipping is greeted: "shipping"
      holds "hi", and the greeting rule comes first. */
  lemma ShippingIsGreetedAsWritten(query: string)
    requires Contains(ToLower(query), "shipping")
    ensures BotResponseAsWritten(query) == GreetingReply
  {
    ContainsInside(ToLower(query), "shipping", "hi", 1);
    assert Matches(ToLower(query), WrittenRules[0]);
  }

  /** "shipping" holds none of the keywords tested before the shipping rule,
      once "hi" is matched as a word only. */
  lemma ShippingMissesEarlierRules()
    ensures !Contains("shipping", "hello") && !WordFrom("shipping", "hi", 0)
    ensures !Contains("shipping", "order") && !Contains("shipping", "track")
    ensures !Contains("shipping", "return") && !Contains("shipping", "refund")
  {
  }

  /** The question "shipping" is greeted as written. */
  lemma ShippingGreetedExample()
    ensures BotResponseAsWritten("shipping") == GreetingReply
  {
    assert Contains("shipping", "shipping");
    ToLowerLaws("shipping");
    ShippingIsGreetedAsWritten("shipping");
  }

  /** Corrected, a question that mentions shipping gets the shipping answer
      unless it says "hello", the word "hi", or names orders or returns. */
  lemma ShippingAnswered(q: string)
    requires Contains(q, "shipping") || Contains(q, "delivery")
    requires !Contains(q, "hello") && !WordFrom(q, "hi", 0)
    requires !Contains(q, "order") && !Contains(q, "track")
    requires !Contains(q, "return") && !Contains(q, "refund")
    ensures Respond(Rules, q) == ShippingReply
  {
    assert !Matches(q, Rules[0]) && !Matches(q, Rules[1]) && !Matches(q, Rules[2]);
    assert Matches(q, Rules[3]);
  }

  /** Corrected, the question "shipping" gets the shipping answer. */
  lemma ShippingAnsweredExample(q: string)
    requires q == "shipping"
    ensures BotResponse(q) == ShippingReply
  {
    ToLowerLaws(q);
    assert ToLower(q) == q;
    ShippingMissesEarlierRules();
    assert Contains(q, "shipping");
    ShippingAnswered(q);
    assert BotResponse(q) == Respond(Rules, ToLower(q));
  }

  /** Corrected, "Hi" on its own is still greeted. */
  lemma HiGreetedExample()
    ensures BotResponse("Hi") == GreetingReply
  {
    assert ToLower("Hi") == "hi";
    assert WordFrom("hi", "hi", 0);
    assert Matches("hi", Rules[0]);
  }

  /** The correction changes only greetings: where the two disagree, the
      written matcher greeted a question in which "hi" occurs only inside a
      word, and the corrected one answers it by the topic rules. */
  lemma CorrectionOnlyDropsGreetings(query: string)
    ensures var q := ToLower(query);
            BotResponseAsWritten(query) != BotResponse(query) ==>
              && BotResponseAsWritten(query) == GreetingReply
              && !Contains(q, "hello") && !WordFrom(q, "hi", 0) && Contains(q, "hi")
              && BotResponse(query) == Respond(TopicRules, q)
  {
    var q := ToLower(query);
    WordFromContains(q, "hi", 0);
    assert WrittenRules[1..] == TopicRules && Rules[1..] == TopicRules;
    if Matches(q, Rules[0]) {
      assert Matches(q, WrittenRules[0]);
    } else if !Matches(q, WrittenRules[0]) {
      assert forall k :: 0 <= k < |Rules| ==> Matches(q, Rules[k]) == Matches(q, WrittenRules[k]);
    }
  }

  /** Matching ignores the case of ASCII letters. */
  lemma CaseInsensitive(a: string, b: string)
    requires ToLower(a) == ToLower(b)
    ensures BotResponse(a) == BotResponse(b) && BotResponseAsWritten(a) == BotResponseAsWritten(b)
  {
  }

  datatype Sender = UserSender | BotSender

  datatype Message = Message(id: int, text: string, sender: Sender)

  const Welcome: Message := Message(1, "Hi! I'm the MetaZone Assistant. How can I help you today?", BotSender)

  /** `!inputText.trim()`. */
  predicate Blank(text: string) {
    Validators.Trim(text) == ""
  }

  /** Blank text is text made only of whitespace. */
  lemma BlankIsAllSpace(text: string)
    ensures Blank(text) <==> forall i :: 0 <= i < |text| ==> Validators.IsSpace(text[i])
  {
    var r := Validators.Trim(text);
    var i, j :| 0 <= i <= j <= |text| && r == text[i..j] &&
                (forall k :: 0 <= k < i ==> Validators.IsSpace(text[k])) &&
                (forall k :: j <= k < |text| ==> Validators.IsSpace(text[k]));
    if r != "" {
      assert r[0] == text[i];
    }
  }

  /** The chat window's state. */
  class ChatWindow {
    var messages: seq<Message>
    var inputText: string

    /** One welcome message from the bot, and an empty input. */
    constructor ()
      ensures messages == [Welcome] && inputText == ""
    {
      messages := [Welcome];
      inputText := "";
    }

    method SetInput(text: string)
      modifies this`inputText
      ensures inputText == text
    {
      inputText := text;
    }

    /** handleSend at time `now`: blank input is ignored; otherwise the text,
        untrimmed, is appended as the user's message, the input is cleared, and
        the question the bot will answer is returned. */
    method HandleSend(now: int) returns (question: string, sent: bool)
      modifies this
      ensures sent <==> !Blank(old(inputText))
      ensures !sent ==> messages == old(messages) && inputText == old(inputText)
      ensures sent ==> && question == old(inputText) && inputText == ""
                       && messages == old(messages) + [Message(now, old(inputText), UserSender)]
    {
      if Blank(inputText) {
        return "", false;
      }
      question := inputText;
      messages := messages + [Message(now, question, UserSender)];
      inputText := "";
      sent := true;
    }

    /** The delayed reply at time `now`: the bot's answer goes at the end,
        with id `now + 1`. */
    method Reply(now: int, question: string)
      modifies this`messages
      ensures messages == old(messages) + [Message(now + 1, BotResponse(question), BotSender)]
    {
      messages := messages + [Message(now + 1, BotResponse(question), BotSender)];
    }
  }
}
