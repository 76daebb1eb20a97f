/** How `@` mentions are found in a message, and whom they select. */
module Mentions {
  import opened Options

  const YOU := "\U{4F60}"
  const USER := "\U{7528}\U{6237}"

  predicate AsciiAlphanumeric(c: char) {
    '0' <= c <= '9' || 'A' <= c <= 'Z' || 'a' <= c <= 'z'
  }

  predicate KeyChar(c: char) {
    AsciiAlphanumeric(c) || c == '_' || c == '.' || c == '-'
  }

  /** An `@` right after such a character is not a mention. */
  predicate Blocks(previous: Option<char>) {
    previous.Some? && (AsciiAlphanumeric(previous.value) || previous.value == '_')
  }

  /** The first word ends here; `alphanumeric` stands for the Unicode tables. */
  predicate Boundary(rest: string, alphanumeric: char -> bool) {
    rest == "" || (!alphanumeric(rest[0]) && rest[0] != '_')
  }

  function UpTo(s: string, c: char): (r: Option<string>)
    ensures r.Some? <==> c in s
    ensures r.Some? ==> r.value + [c] <= s && c !in r.value
  {
    if s == "" then None else
    if s[0] == c then Some("") else
    match UpTo(s[1..], c)
    case None => None
    case Some(r) => Some([s[0]] + r)
  }

  /** The longest prefix of key characters. */
  function KeyPrefix(s: string): (r: string)
    ensures r <= s
    ensures forall k :: 0 <= k < |r| ==> KeyChar(r[k])
    ensures |r| < |s| ==> !KeyChar(s[|r|])
  {
    if s != "" && KeyChar(s[0]) then [s[0]] + KeyPrefix(s[1..]) else ""
  }

  function TrimDots(s: string): (r: string)
    ensures r <= s
    ensures r != "" ==> r[|r| - 1] != '.'
  {
    if s != "" && s[|s| - 1] == '.' then TrimDots(s[..|s| - 1]) else s
  }

  /** The key that follows an `@`, if any. */
  function KeyAfter(tail: string, alphanumeric: char -> bool): Option<string> {
    if tail != "" && tail[0] == '{' then UpTo(tail[1..], '}')
    else if USER <= tail && Boundary(tail[|USER|..], alphanumeric) then Some(USER)
    else if YOU <= tail && Boundary(tail[|YOU|..], alphanumeric) then Some(YOU)
    else
      var key := TrimDots(KeyPrefix(tail));
      if key == "" then None else Some(key)
  }

  function Listed(o: Option<string>): seq<string> {
    if o.Some? then [o.value] else []
  }

  /** All keys in a text that follows the character `previous`. */
  function Scan(previous: Option<char>, text: string, alphanumeric: char -> bool): seq<string>
    decreases |text|
  {
    if text == "" then [] else
    (if text[0] == '@' && !Blocks(previous) then Listed(KeyAfter(text[1..], alphanumeric)) else [])
    + Scan(Some(text[0]), text[1..], alphanumeric)
  }

  function Candidates(text: string, alphanumeric: char -> bool): seq<string> {
    Scan(None, text, alphanumeric)
  }

  lemma OneStep(previous: Option<char>, text: string, alphanumeric: char -> bool)
    requires text != ""
    ensures Scan(previous, text, alphanumeric) ==
              (if text[0] == '@' && !Blocks(previous) then Listed(KeyAfter(text[1..], alphanumeric)) else [])
              + Scan(Some(text[0]), text[1..], alphanumeric)
  {
    hide KeyAfter;
  }

  lemma ScanEmpty(alphanumeric: char -> bool)
    ensures forall previous :: Scan(previous, "", alphanumeric) == []
  {
  }

  method MentionCandidates(text: string, alphanumeric: char -> bool) returns (candidates: seq<string>)
    ensures candidates == Candidates(text, alphanumeric)
  {
    hide KeyAfter, Scan;
    ScanEmpty(alphanumeric);
    candidates := [];
    for index := 0 to |text|
      invariant Candidates(text, alphanumeric)
             == candidates + Scan(if index == 0 then None else Some(text[index - 1]), text[index..], alphanumeric)
    {
      assert text[index..][1..] == text[index + 1..] && text[index..][0] == text[index];
      OneStep(if index == 0 then None else Some(text[index - 1]), text[index..], alphanumeric);
      if text[index] != '@' || (index > 0 && (AsciiAlphanumeric(text[index - 1]) || text[index - 1] == '_')) {
        continue;
      }
      var candidate := KeyAfter(text[index + 1..], alphanumeric);
      if candidate.Some? {
        candidates := candidates + [candidate.value];
      }
    }
  }

  // ---------- the grammar reads back what it writes ----------

  datatype Mention = Mention(key: string, braced: bool)

  predicate WellFormed(m: Mention) {
    if m.braced then '@' !in m.key && '}' !in m.key
    else m.key != "" && (forall k :: 0 <= k < |m.key| ==> KeyChar(m.key[k])) && m.key[|m.key| - 1] != '.'
  }

  function Rendered(m: Mention): string {
    if m.braced then "@{" + m.key + "}" else "@" + m.key
  }

  function Joined(mentions: seq<Mention>): string {
    if mentions == [] then "" else
    if |mentions| == 1 then Rendered(mentions[0]) else Rendered(mentions[0]) + " " + Joined(mentions[1..])
  }

  function Keys(mentions: seq<Mention>): seq<string> {
    seq(|mentions|, i requires 0 <= i < |mentions| => mentions[i].key)
  }

  /** A stretch without `@` contributes no key. */
  lemma {:induction false} SkipPlain(previous: Option<char>, plain: string, rest: string, alphanumeric: char -> bool)
    requires '@' !in plain
    decreases |plain|
    ensures Scan(previous, plain + rest, alphanumeric)
         == Scan(if plain == "" then previous else Some(plain[|plain| - 1]), rest, alphanumeric)
  {
    hide KeyAfter;
    if plain == "" {
      assert plain + rest == rest;
    } else {
      assert (plain + rest)[1..] == plain[1..] + rest;
      assert forall k :: 0 <= k < |plain[1..]| ==> plain[1..][k] in plain;
      assert plain[0] in plain;
      SkipPlain(Some(plain[0]), plain[1..], rest, alphanumeric);
    }
  }

  lemma {:induction false} UpToReads(key: string, c: char, rest: string)
    requires c !in key
    ensures UpTo(key + [c] + rest, c) == Some(key)
  {
    var s := key + [c] + rest;
    if key != "" {
      assert s[1..] == key[1..] + [c] + rest;
      assert key[0] in key && [key[0]] + key[1..] == key;
      UpToReads(key[1..], c, rest);
    }
  }

  lemma {:induction false} KeyPrefixReads(key: string, rest: string)
    requires forall k :: 0 <= k < |key| ==> KeyChar(key[k])
    requires rest == "" || rest[0] == ' '
    ensures KeyPrefix(key + rest) == key
  {
    if key == "" {
      assert key + rest == rest;
    } else {
      assert (key + rest)[1..] == key[1..] + rest;
      KeyPrefixReads(key[1..], rest);
    }
  }

  lemma KeyAfterReads(m: Mention, rest: string, alphanumeric: char -> bool)
    requires WellFormed(m) && (rest == "" || rest[0] == ' ')
    ensures KeyAfter(Rendered(m)[1..] + rest, alphanumeric) == Some(m.key)
  {
    var tail := Rendered(m)[1..] + rest;
    if m.braced {
      assert tail[0] == '{' && tail[1..] == m.key + ['}'] + rest;
      UpToReads(m.key, '}', rest);
    } else {
      assert Rendered(m)[1..] == m.key && tail[0] == m.key[0] && KeyChar(m.key[0]);
      KeyPrefixReads(m.key, rest);
    }
  }

  lemma OnlyOneAt(m: Mention)
    requires WellFormed(m)
    ensures '@' !in Rendered(m)[1..]
  {
    assert m.braced ==> Rendered(m)[1..] == "{" + m.key + "}";
    assert !m.braced ==> Rendered(m)[1..] == m.key;
  }

  /** One rendered mention, followed by nothing or by a space. */
  lemma ScanRendered(previous: Option<char>, m: Mention, rest: string, alphanumeric: char -> bool) returns (last: char)
    requires WellFormed(m) && !Blocks(previous) && (rest == "" || rest[0] == ' ')
    ensures Scan(previous, Rendered(m) + rest, alphanumeric) == [m.key] + Scan(Some(last), rest, alphanumeric)
  {
    hide KeyAfter;
    var text, plain := Rendered(m) + rest, Rendered(m)[1..];
    assert text[1..] == plain + rest && text[0] == '@';
    KeyAfterReads(m, rest, alphanumeric);
    OnlyOneAt(m);
    hide Rendered, WellFormed;
    SkipPlain(Some('@'), plain, rest, alphanumeric);
    last := if plain == "" then '@' else plain[|plain| - 1];
  }

  lemma ScanLast(previous: Option<char>, m: Mention, alphanumeric: char -> bool)
    requires WellFormed(m) && !Blocks(previous)
    ensures Scan(previous, Rendered(m), alphanumeric) == [m.key]
  {
    assert Rendered(m) + "" == Rendered(m);
    var _ := ScanRendered(previous, m, "", alphanumeric);
  }

  lemma ScanHead(previous: Option<char>, m: Mention, more: string, alphanumeric: char -> bool)
    requires WellFormed(m) && !Blocks(previous)
    ensures Scan(previous, Rendered(m) + " " + more, alphanumeric) == [m.key] + Scan(Some(' '), more, alphanumeric)
  {
    assert Rendered(m) + " " + more == Rendered(m) + (" " + more);
    var last := ScanRendered(previous, m, " " + more, alphanumeric);
    hide *;
    SkipPlain(Some(last), " ", more, alphanumeric);
  }

  /** Round trip: scanning a list of mentions separated by spaces gives back exactly their keys, in order. */
  lemma {:induction false} MentionsRoundTrip(previous: Option<char>, mentions: seq<Mention>, alphanumeric: char -> bool)
    requires !Blocks(previous) && forall k :: 0 <= k < |mentions| ==> WellFormed(mentions[k])
    decreases |mentions|
    ensures Scan(previous, Joined(mentions), alphanumeric) == Keys(mentions)
  {
    hide KeyAfter, WellFormed, Rendered;
    if mentions == [] {
      assert Keys(mentions) == [];
    } else {
      var m, others := mentions[0], mentions[1..];
      assert Keys(mentions) == [m.key] + Keys(others);
      if others == [] {
        ScanLast(previous, m, alphanumeric);
      } else {
        assert Joined(mentions) == Rendered(m) + " " + Joined(others);
        ScanHead(previous, m, Joined(others), alphanumeric);
        MentionsRoundTrip(Some(' '), others, alphanumeric);
      }
    }
  }

  // ---------- selection ----------

  function AsciiLower(s: string): (r: string)
    ensures |r| == |s|
  {
    seq(|s|, i requires 0 <= i < |s| => if 'A' <= s[i] <= 'Z' then (s[i] as int + 32) as char else s[i])
  }

  predicate IsUser(key: string) {
    key == YOU || key == USER || AsciiLower(key) == "user"
  }

  /** The elements that pass the test, each once. */
  function Selected(keys: seq<string>, test: string -> bool): (r: seq<string>)
    ensures forall key :: key in r <==> key in keys && test(key)
    ensures forall a, b :: 0 <= a < b < |r| ==> r[a] != r[b]
  {
    if keys == [] then [] else
    var n := |keys| - 1;
    var earlier := Selected(keys[..n], test);
    assert forall key :: key in keys <==> key in keys[..n] || key == keys[n];
    if test(keys[n]) && keys[n] !in earlier then earlier + [keys[n]] else earlier
  }

  function FirstAt(keys: seq<string>, key: string): (i: nat)
    requires key in keys
    ensures i < |keys| && keys[i] == key && key !in keys[..i]
  {
    if keys[0] == key then 0 else 1 + FirstAt(keys[1..], key)
  }

  /** Selection keeps the order of the first occurrences. */
  lemma {:induction false} SelectedInOrder(keys: seq<string>, test: string -> bool, a: nat, b: nat)
    requires a < b < |Selected(keys, test)|
    ensures Selected(keys, test)[a] in keys && Selected(keys, test)[b] in keys
    ensures FirstAt(keys, Selected(keys, test)[a]) < FirstAt(keys, Selected(keys, test)[b])
  {
    var n := |keys| - 1;
    var earlier, r := Selected(keys[..n], test), Selected(keys, test);
    assert r[a] in r && r[b] in r && r[a] in earlier && earlier[a] == r[a];
    FirstAtStays(keys, n, r[a]);
    if b < |earlier| {
      SelectedInOrder(keys[..n], test, a, b);
      assert r[b] in earlier;
      FirstAtStays(keys, n, r[b]);
    } else {
      FirstAtEnd(keys, n);
    }
  }

  lemma {:induction false} FirstAtEnd(keys: seq<string>, n: nat)
    requires n < |keys| && keys[n] !in keys[..n]
    ensures FirstAt(keys, keys[n]) == n
  {
    if n > 0 {
      assert keys[1..][..n - 1] == keys[..n][1..] && keys[0] == keys[..n][0];
      FirstAtEnd(keys[1..], n - 1);
    }
  }

  lemma {:induction false} FirstAtStays(keys: seq<string>, n: nat, key: string)
    requires n <= |keys| && key in keys[..n]
    ensures key in keys && FirstAt(keys, key) == FirstAt(keys[..n], key)
  {
    if keys[0] != key {
      assert keys[1..][..n - 1] == keys[..n][1..];
      FirstAtStays(keys[1..], n - 1, key);
    }
  }

  datatype Chosen = Chosen(members: seq<string>) | NotAMember(key: string)

  /** Whom a user message calls: its mentions without those of the user, each once and in the order of
      first occurrence. It fails exactly when one of them is not a member. */
  method MentionedMembers(text: string, members: seq<string>, alphanumeric: char -> bool) returns (r: Chosen)
    ensures var keys := Candidates(text, alphanumeric);
            r == ChosenBy(keys, members)
  {
    hide Candidates, IsUser;
    var keys := MentionCandidates(text, alphanumeric);
    var selected: seq<string> := [];
    for n := 0 to |keys|
      invariant selected == Selected(keys[..n], key => !IsUser(key))
      invariant forall k :: 0 <= k < n ==> IsUser(keys[k]) || keys[k] in members
    {
      assert keys[..n + 1][..n] == keys[..n];
      var key := keys[n];
      if IsUser(key) {
        continue;
      }
      if key !in members {
        FirstStranger(keys, members, n);
        return NotAMember(key);
      }
      if key !in selected {
        selected := selected + [key];
      }
    }
    assert keys[..|keys|] == keys;
    NoStranger(keys, members);
    r := Chosen(selected);
  }

  predicate Stranger(key: string, members: seq<string>) {
    !IsUser(key) && key !in members
  }

  function Strangers(keys: seq<string>, members: seq<string>): (r: seq<string>)
    ensures r == [] <==> forall k :: 0 <= k < |keys| ==> !Stranger(keys[k], members)
  {
    if keys == [] then [] else
    (if Stranger(keys[0], members) then [keys[0]] else []) + Strangers(keys[1..], members)
  }

  function ChosenBy(keys: seq<string>, members: seq<string>): Chosen {
    var strangers := Strangers(keys, members);
    if strangers != [] then NotAMember(strangers[0]) else Chosen(Selected(keys, key => !IsUser(key)))
  }

  lemma {:induction false} FirstStranger(keys: seq<string>, members: seq<string>, n: nat)
    requires n < |keys| && Stranger(keys[n], members)
    requires forall k :: 0 <= k < n ==> !Stranger(keys[k], members)
    ensures Strangers(keys, members) != [] && Strangers(keys, members)[0] == keys[n]
  {
    if n > 0 {
      FirstStranger(keys[1..], members, n - 1);
    }
  }

  lemma NoStranger(keys: seq<string>, members: seq<string>)
    requires forall k :: 0 <= k < |keys| ==> !Stranger(keys[k], members)
    ensures Strangers(keys, members) == []
  {
  }

  /** A list of well-formed mentions selects its keys that are not the user, each once. */
  lemma RenderedMentionsSelect(mentions: seq<Mention>, members: seq<string>, alphanumeric: char -> bool)
    requires forall k :: 0 <= k < |mentions| ==> WellFormed(mentions[k])
    ensures var r := ChosenBy(Candidates(Joined(mentions), alphanumeric), members);
            && (r.NotAMember? <==> exists k :: 0 <= k < |mentions| && Stranger(mentions[k].key, members))
            && (r.Chosen? ==>
                  && r.members == Selected(Keys(mentions), key => !IsUser(key))
                  && forall m :: m in r.members ==> m in members)
  {
    MentionsRoundTrip(None, mentions, alphanumeric);
    var keys := Keys(mentions);
    assert forall k :: 0 <= k < |keys| ==> keys[k] == mentions[k].key;
    hide Scan, Joined, Candidates, Keys, WellFormed, IsUser;
    if Strangers(keys, members) == [] {
      SelectedAreMembers(keys, members);
    }
  }

  lemma SelectedAreMembers(keys: seq<string>, members: seq<string>)
    requires forall k :: 0 <= k < |keys| ==> !Stranger(keys[k], members)
    ensures forall m :: m in Selected(keys, key => !IsUser(key)) ==> m in members
  {
    forall m | m in Selected(keys, key => !IsUser(key))
      ensures m in members
    {
      var k :| 0 <= k < |keys| && keys[k] == m;
    }
  }

  function MentionsUser(text: string, alphanumeric: char -> bool): bool {
    exists k :: 0 <= k < |Candidates(text, alphanumeric)| && IsUser(Candidates(text, alphanumeric)[k])
  }

  /** The follow-ups that an answer asks for: nobody when it addresses the user, otherwise every other
      member that it mentions, once each. */
  function FollowUps(source: string, answer: string, members: seq<string>,
                     alphanumeric: char -> bool): (r: seq<(string, string)>)
    ensures forall k :: 0 <= k < |r| ==> r[k].0 == source && r[k].1 != source && r[k].1 in members
    ensures forall a, b :: 0 <= a < b < |r| ==> r[a] != r[b]
    ensures r != [] ==> !MentionsUser(answer, alphanumeric)
  {
    if MentionsUser(answer, alphanumeric) then [] else
    var targets := Selected(Candidates(answer, alphanumeric), key => key != source && key in members);
    assert forall k :: 0 <= k < |targets| ==> targets[k] in targets;
    seq(|targets|, i requires 0 <= i < |targets| => (source, targets[i]))
  }
}
