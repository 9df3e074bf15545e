/** The canned replies the chat endpoint falls back to when the completion
    provider answers with a non-success status: an ordered keyword table
    scanned first-match-wins over the lower-cased message, and a default. */
module Fallback {
  import opened Text

  /** The rule set, in declared order; every key is lower-case. */
  const Entries: seq<(string, string)> := [
    ("services", "I offer web development, Firebase systems, UI/UX design, GitHub hosting, domain & DNS setup, and custom online tools development."),
    ("projects", "I've built an Online Tools Suite with 17+ tools, an E-commerce Platform, and an AI Content Generator. You can check out the tools page!"),
    ("contact", "You can reach me via email at kcaarun10@gmail.com or WhatsApp at +977 98-10975653. The links are in the contact section!"),
    ("technologies", "I work with HTML/CSS, JavaScript, React/Vue, Firebase, Node.js, Express, GitHub, Cloudflare, and focus on UI/UX, performance, and SEO."),
    ("price", "For pricing details, please contact me directly via email or WhatsApp with your project requirements. I provide custom quotes based on project scope."),
    ("experience", "I'm a web developer focused on creating fast, modern, and accessible web experiences with expertise in frontend and backend technologies.")
  ]

  /** The reply used when no key occurs in the message. */
  const Default: string := "Thank you for your message! For specific inquiries about my services, projects, or to discuss your project needs, please contact me directly at kcaarun10@gmail.com or WhatsApp +977 98-10975653."

  /** The seven strings a fallback reply can be: the six values and the default. */
  function Replies(): set<string>
  {
    {Default} + set i | 0 <= i < |Entries| :: Entries[i].1
  }

  /** First-match-wins scan of `table` over an already lower-cased text:
      either the default, or the value of an entry whose key the text includes. */
  function FirstMatch(table: seq<(string, string)>, lower: string, default: string): (r: string)
    ensures r == default || exists i :: 0 <= i < |table| && Includes(lower, table[i].0) && r == table[i].1
  {
    if table == [] then default
    else if Includes(lower, table[0].0) then table[0].1
    else FirstMatch(table[1..], lower, default)
  }

  /** The fallback reply for a chat message: the default, or the reply of a
      key that occurs in the message in some letter case. */
  function FallbackReply(message: string): (r: string)
    ensures r == Default || exists i :: 0 <= i < |Entries| && Includes(Lower(message), Entries[i].0) && r == Entries[i].1
  {
    FirstMatch(Entries, Lower(message), Default)
  }

  /** No key before index `i` occurs in `lower`. */
  predicate NoEarlierMatch(table: seq<(string, string)>, lower: string, i: nat)
    requires i <= |table|
  {
    forall j :: 0 <= j < i ==> !Includes(lower, table[j].0)
  }

  /** The imperative scan: start from the default, walk the entries in order,
      and overwrite the reply with the value of the first key the lower-cased
      message includes, stopping there. */
  method SelectReply(message: string) returns (response: string)
    ensures response == FallbackReply(message)
  {
    response := Default;
    var lowerMessage := Lower(message);
    for i := 0 to |Entries|
      invariant NoEarlierMatch(Entries, lowerMessage, i)
      invariant response == Default
    {
      var (key, value) := Entries[i];
      if Includes(lowerMessage, key) {
        FirstMatchAt(Entries, lowerMessage, Default, i);
        response := value;
        break;
      }
    }
    // the reply is still the default only if no key matched, because no
    // table value equals the default
    RepliesDistinct();
    if response == Default {
      FirstMatchNone(Entries, lowerMessage, Default);
    }
  }

  /** The entry at `i` is chosen when its key occurs and no earlier one does. */
  lemma {:induction false} FirstMatchAt(table: seq<(string, string)>, lower: string, default: string, i: nat)
    requires i < |table|
    requires Includes(lower, table[i].0)
    requires NoEarlierMatch(table, lower, i)
    ensures FirstMatch(table, lower, default) == table[i].1
  {
    if i > 0 {
      assert !Includes(lower, table[0].0);
      FirstMatchAt(table[1..], lower, default, i - 1);
    }
  }

  /** When no key occurs, the default is chosen. */
  lemma {:induction false} FirstMatchNone(table: seq<(string, string)>, lower: string, default: string)
    requires NoEarlierMatch(table, lower, |table|)
    ensures FirstMatch(table, lower, default) == default
  {
    if table != [] {
      assert !Includes(lower, table[0].0);
      FirstMatchNone(table[1..], lower, default);
    }
  }

  /** Conversely, the scan picks either the default with no key occurring, or
      the value at the first index whose key occurs. */
  lemma {:induction false} FirstMatchCases(table: seq<(string, string)>, lower: string, default: string)
    ensures || (NoEarlierMatch(table, lower, |table|) && FirstMatch(table, lower, default) == default)
            || (exists i :: 0 <= i < |table| && Includes(lower, table[i].0) && NoEarlierMatch(table, lower, i)
                             && FirstMatch(table, lower, default) == table[i].1)
  {
    if table != [] && !Includes(lower, table[0].0) {
      var rest := table[1..];
      FirstMatchCases(rest, lower, default);
      if NoEarlierMatch(rest, lower, |rest|) {
        assert NoEarlierMatch(table, lower, |table|) by {
          forall j | 0 <= j < |table| ensures !Includes(lower, table[j].0) {
            if j > 0 { assert table[j] == rest[j - 1]; }
          }
        }
      } else {
        var i :| 0 <= i < |rest| && Includes(lower, rest[i].0) && NoEarlierMatch(rest, lower, i)
                 && FirstMatch(rest, lower, default) == rest[i].1;
        assert table[i + 1] == rest[i];
        assert NoEarlierMatch(table, lower, i + 1) by {
          forall j | 0 <= j < i + 1 ensures !Includes(lower, table[j].0) {
            if j > 0 { assert table[j] == rest[j - 1]; }
          }
        }
      }
    } else if table != [] {
      assert NoEarlierMatch(table, lower, 0);
    }
  }

  /** The replies of the table are pairwise distinct and differ from the default. */
  lemma RepliesDistinct()
    ensures forall i, j :: 0 <= i < j < |Entries| ==> Entries[i].1 != Entries[j].1
    ensures forall i :: 0 <= i < |Entries| ==> Entries[i].1 != Default
  {
  }

  /** The fallback picks entry `i` exactly when key `i` occurs in the
      lower-cased message and no earlier key does. */
  lemma FallbackPicksEntryIff(message: string, i: nat)
    requires i < |Entries|
    ensures FallbackReply(message) == Entries[i].1
            <==> Includes(Lower(message), Entries[i].0) && NoEarlierMatch(Entries, Lower(message), i)
  {
    var lower := Lower(message);
    RepliesDistinct();
    FirstMatchCases(Entries, lower, Default);
    if Includes(lower, Entries[i].0) && NoEarlierMatch(Entries, lower, i) {
      FirstMatchAt(Entries, lower, Default, i);
    }
  }

  /** The fallback is the default exactly when no key occurs in the
      lower-cased message. */
  lemma FallbackDefaultIff(message: string)
    ensures FallbackReply(message) == Default <==> NoEarlierMatch(Entries, Lower(message), |Entries|)
  {
    RepliesDistinct();
    FirstMatchCases(Entries, Lower(message), Default);
  }

  /** The fallback reply is always one of the seven fixed strings. */
  lemma FallbackInReplies(message: string)
    ensures FallbackReply(message) in Replies()
  {
    FirstMatchCases(Entries, Lower(message), Default);
  }

  /** Changing the ASCII case of letters never changes the fallback reply. */
  lemma FallbackCaseInsensitive(a: string, b: string)
    requires SameUpToCase(a, b)
    ensures FallbackReply(a) == FallbackReply(b)
  {
    SameUpToCaseLower(a, b);
  }

  /** In particular, shouting the message selects the same reply, and a
      message already in lower case is matched as written. */
  lemma FallbackUpperLower(message: string)
    ensures FallbackReply(Upper(message)) == FallbackReply(message)
    ensures FallbackReply(Lower(message)) == FallbackReply(message)
  {
    UpperSameUpToCase(message);
    FallbackCaseInsensitive(Upper(message), message);
    LowerIsAllLower(message);
    AllLowerFixed(Lower(message));
  }

  /** A message that spells "services" in any case gets the services reply,
      whatever other keys it also mentions: "services" is declared first. */
  lemma ServicesWins(message: string, i: nat)
    requires i + |Entries[0].0| <= |message|
    requires SameUpToCase(message[i..i + |Entries[0].0|], Entries[0].0)
    ensures FallbackReply(message) == Entries[0].1
  {
    LowerOccurrence(message, Entries[0].0, i);
    FirstMatchAt(Entries, Lower(message), Default, 0);
  }
}
