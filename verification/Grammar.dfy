/** What a mention is, in plain terms; scanning a text finds all of its mentions and nothing else. */
module Grammar {
  import opened Options
  import opened Mentions

  predicate IsWordChar(c: char) {
    'a' <= c <= 'z' || 'A' <= c <= 'Z' || '0' <= c <= '9' || c == '_'
  }

  /** `word` stands at the front of the text and is a whole word there. */
  predicate IsWholeWord(word: string, tail: string, alphanumeric: char -> bool) {
    word <= tail && (|tail| == |word| || (!alphanumeric(tail[|word|]) && tail[|word|] != '_'))
  }

  predicate IsPlainChar(c: char) {
    IsWordChar(c) || c == '.' || c == '-'
  }

  /** The text goes on with `n` dots, and then with something else that is not part of a key. */
  predicate EndsInDots(tail: string, from: nat, n: nat) {
    && from + n <= |tail|
    && (forall k :: from <= k < from + n ==> tail[k] == '.')
    && (from + n == |tail| || !IsPlainChar(tail[from + n]))
  }

  ghost predicate IsPlainKey(tail: string, key: string) {
    && key != "" && key <= tail && key[|key| - 1] != '.'
    && (forall k :: 0 <= k < |key| ==> IsPlainChar(key[k]))
    && exists n: nat :: EndsInDots(tail, |key|, n)
  }

  /** An `@` before `tail` mentions `key`: in braces, as a word for the user, or as a plain name without the dots
      that end a sentence. */
  ghost predicate IsKey(tail: string, key: string, alphanumeric: char -> bool) {
    || ("{" + key + "}" <= tail && '}' !in key)
    || (key in ["\U{7528}\U{6237}", "\U{4F60}"] && IsWholeWord(key, tail, alphanumeric))
    || IsPlainKey(tail, key)
  }

  lemma PlainCharsExactly()
    ensures forall c :: KeyChar(c) <==> IsPlainChar(c)
  {
  }

  /** Only dots are trimmed. */
  lemma {:induction false} TrimsOnlyDots(s: string)
    ensures forall k :: |TrimDots(s)| <= k < |s| ==> s[k] == '.'
  {
    if s != "" && s[|s| - 1] == '.' {
      TrimsOnlyDots(s[..|s| - 1]);
    }
  }

  lemma BracedExactly(tail: string, key: string)
    requires tail != "" && tail[0] == '{'
    ensures UpTo(tail[1..], '}') == Some(key) <==> "{" + key + "}" <= tail && '}' !in key
  {
    if "{" + key + "}" <= tail && '}' !in key {
      var rest := tail[|key| + 2..];
      assert tail == "{" + key + "}" + rest;
      assert tail[1..] == key + ['}'] + rest;
      UpToReads(key, '}', rest);
    }
    if UpTo(tail[1..], '}') == Some(key) {
      assert "{" + (key + ['}']) == "{" + key + "}";
      assert "{" + key + "}" <= "{" + tail[1..] == tail;
    }
  }

  lemma PlainKeyIsTrimmed(tail: string)
    requires TrimDots(KeyPrefix(tail)) != ""
    ensures IsPlainKey(tail, TrimDots(KeyPrefix(tail)))
  {
    hide KeyPrefix, TrimDots, IsPlainChar, KeyChar;
    var prefix := KeyPrefix(tail);
    var key := TrimDots(prefix);
    TrimsOnlyDots(prefix);
    assert forall c :: KeyChar(c) <==> IsPlainChar(c) by { PlainCharsExactly(); }
    assert EndsInDots(tail, |key|, |prefix| - |key|);
  }

  /** A plain key is determined by the text. */
  lemma PlainKeyIsUnique(tail: string, a: string, b: string)
    requires IsPlainKey(tail, a) && IsPlainKey(tail, b)
    ensures a == b
  {
    hide IsPlainChar;
    if |a| < |b| {
      ShorterIsNoKey(tail, a, b);
    } else if |b| < |a| {
      ShorterIsNoKey(tail, b, a);
    }
  }

  lemma ShorterIsNoKey(tail: string, a: string, b: string)
    requires IsPlainKey(tail, a) && IsPlainKey(tail, b)
    ensures |a| >= |b|
  {
    hide IsPlainChar;
    var n: nat :| EndsInDots(tail, |a|, n);
    assert forall k :: 0 <= k < |b| ==> tail[k] == b[k];
  }

  /** A plain key begins with an ASCII character, and with no brace. */
  lemma PlainBegins(tail: string, key: string)
    requires IsPlainKey(tail, key)
    ensures tail != "" && tail[0] != '{' && tail[0] as int < 0x80
  {
    assert tail[0] == key[0] && IsPlainChar(key[0]);
  }

  lemma PlainExactly(tail: string, key: string)
    ensures TrimDots(KeyPrefix(tail)) == key != "" <==> IsPlainKey(tail, key)
  {
    hide KeyPrefix, TrimDots, IsPlainKey;
    var trimmed := TrimDots(KeyPrefix(tail));
    if trimmed != "" {
      PlainKeyIsTrimmed(tail);
      if IsPlainKey(tail, key) {
        PlainKeyIsUnique(tail, key, trimmed);
      }
    } else if IsPlainKey(tail, key) {
      PlainKeyIsFound(tail, key);
    }
  }

  lemma PlainKeyIsFound(tail: string, key: string)
    requires IsPlainKey(tail, key)
    ensures TrimDots(KeyPrefix(tail)) != ""
  {
    hide IsPlainChar, KeyChar;
    var prefix := KeyPrefix(tail);
    TrimsOnlyDots(prefix);
    assert forall c :: KeyChar(c) <==> IsPlainChar(c) by { PlainCharsExactly(); }
    assert forall k :: 0 <= k < |key| ==> tail[k] == key[k];
    assert prefix[|key| - 1] == key[|key| - 1];
  }

  /** Each `@` has the key of the grammar, and no other. */
  lemma KeyAfterExactly(tail: string, key: string, alphanumeric: char -> bool)
    ensures KeyAfter(tail, alphanumeric) == Some(key) <==> IsKey(tail, key, alphanumeric)
  {
    hide IsPlainKey, UpTo, TrimDots, KeyPrefix;
    PlainExactly(tail, key);
    if IsPlainKey(tail, key) {
      PlainBegins(tail, key);
    }
    if tail != "" && tail[0] == '{' {
      BracedExactly(tail, key);
    }
  }

  // ---------- a whole text ----------

  /** An `@` that does not belong to a word before it, such as that of a mail address. */
  predicate IsFreeAt(text: string, p: nat) {
    p < |text| && text[p] == '@' && (p == 0 || !IsWordChar(text[p - 1]))
  }

  ghost predicate IsMention(text: string, p: nat, key: string, alphanumeric: char -> bool) {
    IsFreeAt(text, p) && IsKey(text[p + 1..], key, alphanumeric)
  }

  /** `keys` are the keys that are mentioned at the places `at`; these are all mentions from `index` on. */
  ghost predicate AreMentions(text: string, index: nat, at: seq<nat>, keys: seq<string>, alphanumeric: char -> bool) {
    && |at| == |keys|
    && (forall i, j :: 0 <= i < j < |at| ==> at[i] < at[j])
    && (forall i :: 0 <= i < |at| ==> index <= at[i] && IsMention(text, at[i], keys[i], alphanumeric))
    && (forall p, key :: index <= p && IsMention(text, p, key, alphanumeric) ==> p in at)
  }

  function Before(text: string, index: nat): Option<char>
    requires index <= |text|
  {
    if index == 0 then None else Some(text[index - 1])
  }

  /** The keys that the scan finds from `index` on. */
  function ScanFrom(text: string, index: nat, alphanumeric: char -> bool): seq<string>
    requires index <= |text|
  {
    Scan(Before(text, index), text[index..], alphanumeric)
  }

  lemma FreeExactly(text: string, p: nat)
    requires p < |text|
    ensures IsFreeAt(text, p) <==> text[p] == '@' && !Blocks(Before(text, p))
  {
  }

  lemma {:induction false} ScanExactly(text: string, index: nat, alphanumeric: char -> bool) returns (at: seq<nat>)
    requires index <= |text|
    decreases |text| - index
    ensures AreMentions(text, index, at, ScanFrom(text, index, alphanumeric), alphanumeric)
  {
    hide AreMentions, ScanFrom, KeyAfter, IsFreeAt, IsMention;
    if index == |text| {
      at := [];
      NothingLeft(text, alphanumeric);
    } else {
      var later := ScanExactly(text, index + 1, alphanumeric);
      ScanStep(text, index, alphanumeric);
      MentionsAt(text, index, alphanumeric);
      var key, keys := KeyAfter(text[index + 1..], alphanumeric), ScanFrom(text, index + 1, alphanumeric);
      if IsFreeAt(text, index) && key.Some? {
        at := [index] + later;
        OneMoreMention(text, index, key.value, later, keys, alphanumeric);
      } else {
        at := later;
        NoMention(text, index, later, keys, alphanumeric);
      }
    }
  }

  lemma NothingLeft(text: string, alphanumeric: char -> bool)
    ensures AreMentions(text, |text|, [], ScanFrom(text, |text|, alphanumeric), alphanumeric)
  {
    hide IsKey, Scan;
    ScanEmpty(alphanumeric);
    assert text[|text|..] == "";
  }

  lemma ScanStep(text: string, index: nat, alphanumeric: char -> bool)
    requires index < |text|
    ensures var key, keys := KeyAfter(text[index + 1..], alphanumeric), ScanFrom(text, index + 1, alphanumeric);
            ScanFrom(text, index, alphanumeric) ==
              if IsFreeAt(text, index) && key.Some? then [key.value] + keys else keys
  {
    hide KeyAfter, Scan, IsFreeAt, Blocks;
    assert text[index..][1..] == text[index + 1..] && text[index..][0] == text[index];
    OneStep(Before(text, index), text[index..], alphanumeric);
    FreeExactly(text, index);
  }

  lemma MentionsAt(text: string, index: nat, alphanumeric: char -> bool)
    requires index < |text|
    ensures forall key :: IsMention(text, index, key, alphanumeric) <==>
              IsFreeAt(text, index) && KeyAfter(text[index + 1..], alphanumeric) == Some(key)
  {
    hide KeyAfter, IsKey, IsFreeAt;
    forall key
      ensures IsMention(text, index, key, alphanumeric) <==>
                IsFreeAt(text, index) && KeyAfter(text[index + 1..], alphanumeric) == Some(key)
    {
      KeyAfterExactly(text[index + 1..], key, alphanumeric);
    }
  }

  lemma OneMoreMention(text: string, index: nat, key: string, later: seq<nat>, keys: seq<string>,
                       alphanumeric: char -> bool)
    requires AreMentions(text, index + 1, later, keys, alphanumeric) && IsMention(text, index, key, alphanumeric)
    ensures AreMentions(text, index, [index] + later, [key] + keys, alphanumeric)
  {
    hide IsMention;
    var at := [index] + later;
    assert forall p :: p in at <==> p == index || p in later;
  }

  lemma NoMention(text: string, index: nat, later: seq<nat>, keys: seq<string>, alphanumeric: char -> bool)
    requires AreMentions(text, index + 1, later, keys, alphanumeric)
    requires forall key :: !IsMention(text, index, key, alphanumeric)
    ensures AreMentions(text, index, later, keys, alphanumeric)
  {
    hide IsMention;
    forall p, key | index <= p && IsMention(text, p, key, alphanumeric)
      ensures p in later
    {
      assert p != index;
    }
  }

  /** The keys of a text are those of all of its mentions, in order. */
  lemma CandidatesExactly(text: string, alphanumeric: char -> bool) returns (at: seq<nat>)
    ensures AreMentions(text, 0, at, Candidates(text, alphanumeric), alphanumeric)
  {
    hide Scan, AreMentions;
    assert text[0..] == text;
    at := ScanExactly(text, 0, alphanumeric);
  }

  /** An answer that addresses the user calls nobody; any other calls exactly the other members that it mentions,
      in the order in which it first mentions them. */
  lemma FollowUpsExactly(source: string, answer: string, members: seq<string>, alphanumeric: char -> bool)
    ensures var calls, keys := FollowUps(source, answer, members, alphanumeric), Candidates(answer, alphanumeric);
            && (forall p :: p in calls <==>
                  && p.0 == source && p.1 != source && p.1 in members && p.1 in keys
                  && forall k :: 0 <= k < |keys| ==> !IsUser(keys[k]))
            && (forall a, b :: 0 <= a < b < |calls| ==>
                  calls[a].1 in keys && calls[b].1 in keys && FirstAt(keys, calls[a].1) < FirstAt(keys, calls[b].1))
  {
    hide Candidates, IsUser, Selected, FirstAt;
    var keys, calls := Candidates(answer, alphanumeric), FollowUps(source, answer, members, alphanumeric);
    if !MentionsUser(answer, alphanumeric) {
      var test := key => key != source && key in members;
      var targets := Selected(keys, test);
      forall p: (string, string) | p.0 == source && p.1 in targets
        ensures p in calls
      {
        var k :| 0 <= k < |targets| && targets[k] == p.1;
        assert calls[k] == p;
      }
      forall a, b | 0 <= a < b < |calls|
        ensures calls[a].1 in keys && calls[b].1 in keys && FirstAt(keys, calls[a].1) < FirstAt(keys, calls[b].1)
      {
        SelectedInOrder(keys, test, a, b);
      }
    }
  }

  /** The user is addressed in Chinese, or in English in any case. */
  lemma IsUserExactly(key: string)
    ensures IsUser(key) <==>
              || key in ["\U{7528}\U{6237}", "\U{4F60}"]
              || (|key| == 4 && key[0] in "uU" && key[1] in "sS" && key[2] in "eE" && key[3] in "rR")
  {
    if |key| == 4 {
      var lower := AsciiLower(key);
      assert lower == "user" <==> lower[0] == 'u' && lower[1] == 's' && lower[2] == 'e' && lower[3] == 'r';
      LetterCase(key[0], 'u', 'U');
      LetterCase(key[1], 's', 'S');
      LetterCase(key[2], 'e', 'E');
      LetterCase(key[3], 'r', 'R');
    }
  }

  lemma LetterCase(c: char, small: char, big: char)
    requires 'a' <= small <= 'z' && big as int + 32 == small as int
    ensures (if 'A' <= c <= 'Z' then (c as int + 32) as char else c) == small <==> c == small || c == big
  {
  }
}
