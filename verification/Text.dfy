/** The few facts about text that the program relies on. */
module Text {

  /** The code points with the Unicode property White_Space. */
  predicate IsWhitespace(c: char) {
    var n := c as int;
    || 0x9 <= n <= 0xD || n == 0x20 || n == 0x85 || n == 0xA0 || n == 0x1680
    || 0x2000 <= n <= 0x200A || n == 0x2028 || n == 0x2029 || n == 0x202F || n == 0x205F || n == 0x3000
  }

  function TrimStart(s: string): (r: string)
    ensures |r| <= |s|
    ensures r != "" ==> !IsWhitespace(r[0])
  {
    if s != "" && IsWhitespace(s[0]) then TrimStart(s[1..]) else s
  }

  function Trim(s: string): (r: string)
    ensures |r| <= |s|
  {
    TrimEnd(TrimStart(s))
  }

  function TrimEnd(s: string): (r: string)
    ensures |r| <= |s|
    ensures r <= s
    ensures r != "" ==> !IsWhitespace(r[|r| - 1])
  {
    if s != "" && IsWhitespace(s[|s| - 1]) then TrimEnd(s[..|s| - 1]) else s
  }

  predicate AllWhitespace(s: string) {
    forall k :: 0 <= k < |s| ==> IsWhitespace(s[k])
  }

  lemma {:induction false} TrimStartExactly(s: string)
    ensures exists front :: AllWhitespace(front) && s == front + TrimStart(s)
  {
    hide IsWhitespace;
    if s != "" && IsWhitespace(s[0]) {
      TrimStartExactly(s[1..]);
      var front :| AllWhitespace(front) && s[1..] == front + TrimStart(s[1..]);
      assert AllWhitespace([s[0]] + front) && s == [s[0]] + front + TrimStart(s);
    } else {
      assert AllWhitespace("") && s == "" + TrimStart(s);
    }
  }

  lemma {:induction false} TrimEndExactly(s: string)
    ensures exists back :: AllWhitespace(back) && s == TrimEnd(s) + back
  {
    hide IsWhitespace;
    if s != "" && IsWhitespace(s[|s| - 1]) {
      var n := |s| - 1;
      TrimEndExactly(s[..n]);
      var back :| AllWhitespace(back) && s[..n] == TrimEnd(s[..n]) + back;
      assert AllWhitespace(back + [s[n]]) && s == TrimEnd(s) + (back + [s[n]]);
    } else {
      assert AllWhitespace("") && s == TrimEnd(s) + "";
    }
  }

  /** Trimming takes away white space at both ends, all of it and nothing else. */
  lemma TrimExactly(s: string) returns (front: string, back: string)
    ensures AllWhitespace(front) && AllWhitespace(back) && s == front + Trim(s) + back
    ensures Trim(s) != "" ==> !IsWhitespace(Trim(s)[0]) && !IsWhitespace(Trim(s)[|Trim(s)| - 1])
  {
    hide IsWhitespace, TrimStart, TrimEnd;
    TrimStartExactly(s);
    front :| AllWhitespace(front) && s == front + TrimStart(s);
    TrimEndExactly(TrimStart(s));
    back :| AllWhitespace(back) && TrimStart(s) == TrimEnd(TrimStart(s)) + back;
  }

  predicate IsBlank(s: string) {
    Trim(s) == ""
  }

  lemma BlankExactly(s: string)
    ensures IsBlank(s) <==> AllWhitespace(s)
  {
    hide IsWhitespace, TrimStart, TrimEnd;
    var front, back := TrimExactly(s);
    if IsBlank(s) {
      assert s == front + back;
    } else {
      assert s[|front|] == Trim(s)[0];
    }
  }

  /** Length in bytes of the UTF-8 form. */
  function Utf8Length(s: string): nat {
    if s == "" then 0 else
    var n := s[0] as int;
    (if n < 0x80 then 1 else if n < 0x800 then 2 else if n < 0x1_0000 then 3 else 4) + Utf8Length(s[1..])
  }

  /** The UTF-8 form of one character, as in section 3 of RFC 3629. */
  function Octets(c: char): seq<nat> {
    var n := c as int;
    if n < 0x80 then [n]
    else if n < 0x800 then [0xC0 + n / 0x40, 0x80 + n % 0x40]
    else if n < 0x1_0000 then [0xE0 + n / 0x1000, 0x80 + n / 0x40 % 0x40, 0x80 + n % 0x40]
    else [0xF0 + n / 0x4_0000, 0x80 + n / 0x1000 % 0x40, 0x80 + n / 0x40 % 0x40, 0x80 + n % 0x40]
  }

  function Utf8(s: string): seq<nat> {
    if s == "" then [] else Octets(s[0]) + Utf8(s[1..])
  }

  lemma {:induction false} Utf8LengthExactly(s: string)
    ensures Utf8Length(s) == |Utf8(s)|
  {
    if s != "" {
      Utf8LengthExactly(s[1..]);
    }
  }
}
