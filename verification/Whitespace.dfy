/** `normalize_whitespace`: runs of whitespace become one space, and the ends are trimmed. */
module Whitespace {
  // The characters Python's `\s` and `strip` treat as whitespace.
  predicate IsSpace(c: char) {
    var n := c as int;
    || 0x09 <= n <= 0x0D || 0x1C <= n <= 0x20 || n == 0x85 || n == 0xA0 || n == 0x1680
    || 0x2000 <= n <= 0x200A || n == 0x2028 || n == 0x2029 || n == 0x202F || n == 0x205F || n == 0x3000
  }

  // The 29 characters of Unicode whitespace, separators of information included.
  lemma SpacesAre(c: char)
    ensures IsSpace(c) <==> c in {
      '\U{0009}', '\U{000A}', '\U{000B}', '\U{000C}', '\U{000D}', '\U{001C}', '\U{001D}', '\U{001E}',
      '\U{001F}', ' ', '\U{0085}', '\U{00A0}', '\U{1680}', '\U{2000}', '\U{2001}', '\U{2002}', '\U{2003}',
      '\U{2004}', '\U{2005}', '\U{2006}', '\U{2007}', '\U{2008}', '\U{2009}', '\U{200A}', '\U{2028}',
      '\U{2029}', '\U{202F}', '\U{205F}', '\U{3000}' }
  {
  }

  // The longest prefix of one kind.
  function RunLength(s: string, spaces: bool): (n: nat)
    ensures n <= |s| && forall i :: 0 <= i < n ==> IsSpace(s[i]) == spaces
    ensures n < |s| ==> IsSpace(s[n]) != spaces
  {
    if s == [] || IsSpace(s[0]) != spaces then 0 else 1 + RunLength(s[1..], spaces)
  }

  // `re.sub(r"\s+", " ", s)`
  function Collapsed(s: string): string
    decreases |s|
  {
    if s == [] then []
    else if IsSpace(s[0]) then " " + Collapsed(s[RunLength(s, true)..])
    else s[..1] + Collapsed(s[1..])
  }

  function StripLeft(s: string): string {
    if s == [] || !IsSpace(s[0]) then s else StripLeft(s[1..])
  }

  function StripRight(s: string): string {
    if s == [] || !IsSpace(s[|s| - 1]) then s else StripRight(s[..|s| - 1])
  }

  function Strip(s: string): string {
    StripRight(StripLeft(s))
  }

  predicate AllSpace(s: string) {
    forall i :: 0 <= i < |s| ==> IsSpace(s[i])
  }

  // Stripping takes whitespace off both ends, all of it and nothing else.
  lemma StripExactly(s: string) returns (before: string, after: string)
    ensures s == before + Strip(s) + after && AllSpace(before) && AllSpace(after)
    ensures Strip(s) != "" ==> !IsSpace(Strip(s)[0]) && !IsSpace(Strip(s)[|Strip(s)| - 1])
  {
    var rest := StripLeft(s);
    before := StripLeftTakes(s);
    after := StripRightTakes(rest);
    assert Strip(s) != "" ==> Strip(s)[0] == rest[0];
  }

  lemma {:induction false} StripLeftTakes(s: string) returns (before: string)
    ensures s == before + StripLeft(s) && AllSpace(before)
    ensures StripLeft(s) != "" ==> !IsSpace(StripLeft(s)[0])
  {
    if s == [] || !IsSpace(s[0]) {
      before := "";
    } else {
      var more := StripLeftTakes(s[1..]);
      before := [s[0]] + more;
    }
  }

  lemma {:induction false} StripRightTakes(s: string) returns (after: string)
    ensures s == StripRight(s) + after && AllSpace(after)
    ensures StripRight(s) != "" ==> !IsSpace(StripRight(s)[|StripRight(s)| - 1])
  {
    if s == [] || !IsSpace(s[|s| - 1]) {
      after := "";
    } else {
      var more := StripRightTakes(s[..|s| - 1]);
      after := more + [s[|s| - 1]];
    }
  }

  function NormalizeWhitespace(s: string): string {
    Strip(Collapsed(s))
  }

  // --- the same, by words ---

  function Words(s: string): seq<string>
    decreases |s|
  {
    if s == [] then []
    else if IsSpace(s[0]) then Words(s[1..])
    else [s[..RunLength(s, false)]] + Words(s[RunLength(s, false)..])
  }

  function Join(words: seq<string>): string {
    if words == [] then [] else if |words| == 1 then words[0] else words[0] + " " + Join(words[1..])
  }

  predicate IsWord(w: string) {
    w != [] && forall i :: 0 <= i < |w| ==> !IsSpace(w[i])
  }

  lemma {:induction false} WordsAreWords(s: string)
    ensures forall w :: w in Words(s) ==> IsWord(w)
    decreases |s|
  {
    if s != [] {
      WordsAreWords(if IsSpace(s[0]) then s[1..] else s[RunLength(s, false)..]);
    }
  }

  lemma {:induction false} WordsAfterSpaces(s: string, n: nat)
    requires n <= |s| && forall i :: 0 <= i < n ==> IsSpace(s[i])
    ensures Words(s[n..]) == Words(s)
    decreases n
  {
    if n > 0 {
      WordsAfterSpaces(s[1..], n - 1);
      assert s[1..][n - 1..] == s[n..];
    } else {
      assert s[0..] == s;
    }
  }

  lemma {:induction false} CollapsedWord(s: string, n: nat)
    requires n <= |s| && forall i :: 0 <= i < n ==> !IsSpace(s[i])
    ensures Collapsed(s) == s[..n] + Collapsed(s[n..])
    decreases n
  {
    if n > 0 {
      CollapsedWord(s[1..], n - 1);
      assert s[1..][n - 1..] == s[n..];
      assert s[..n] == s[..1] + s[1..][..n - 1];
    } else {
      assert s[0..] == s;
    }
  }

  // Whether a space remains before the first word, and after the last.
  function Edge(b: bool): string {
    if b then " " else ""
  }

  lemma {:induction false} CollapsedFromSpace(s: string)
    requires s != [] && IsSpace(s[0])
    ensures Collapsed(s) == (if Words(s) == [] then " " else " " + Join(Words(s)) + Edge(IsSpace(s[|s| - 1])))
    decreases |s|, 0
  {
    var n := RunLength(s, true);
    WordsAfterSpaces(s, n);
    if n < |s| {
      CollapsedFromWord(s[n..]);
      assert s[n..][|s[n..]| - 1] == s[|s| - 1];
      assert " " + (Join(Words(s)) + Edge(IsSpace(s[|s| - 1]))) == " " + Join(Words(s)) + Edge(IsSpace(s[|s| - 1]));
    }
  }

  lemma {:induction false} CollapsedFromWord(s: string)
    requires s != [] && !IsSpace(s[0])
    ensures Words(s) != [] && Collapsed(s) == Join(Words(s)) + Edge(IsSpace(s[|s| - 1]))
    decreases |s|, 0
  {
    hide Collapsed, Words, Join, IsSpace;
    var n := RunLength(s, false);
    var word, rest, edge := s[..n], s[n..], Edge(IsSpace(s[|s| - 1]));
    CollapsedWord(s, n);
    WordsFromWord(s);
    if rest == [] {
      NothingLeft(word);
    } else {
      assert rest[|rest| - 1] == s[|s| - 1];
      CollapsedFromSpace(rest);
      JoinOne(word, Words(rest));
      if Words(rest) == [] {
        AllSpaces(rest);
      } else {
        assert word + (" " + Join(Words(rest)) + edge) == word + " " + Join(Words(rest)) + edge;
      }
    }
  }

  lemma WordsFromWord(s: string)
    requires s != [] && !IsSpace(s[0])
    ensures Words(s) == [s[..RunLength(s, false)]] + Words(s[RunLength(s, false)..])
    ensures s == s[..RunLength(s, false)] + s[RunLength(s, false)..]
  {
  }

  lemma NothingLeft(word: string)
    ensures Words([]) == [] && Collapsed([]) == [] && word + [] == word && Join([word]) == word && [word] + [] == [word]
  {
  }

  lemma JoinOne(word: string, rest: seq<string>)
    ensures Join([word] + rest) == if rest == [] then word else word + " " + Join(rest)
  {
    assert ([word] + rest)[1..] == rest;
  }

  lemma {:induction false} AllSpaces(s: string)
    requires Words(s) == []
    ensures forall i :: 0 <= i < |s| ==> IsSpace(s[i])
    decreases |s|
  {
    if s != [] {
      AllSpaces(s[1..]);
    }
  }

  lemma {:induction false} JoinEnds(words: seq<string>)
    requires words != [] && forall w :: w in words ==> IsWord(w)
    ensures Join(words) != [] && !IsSpace(Join(words)[0]) && !IsSpace(Join(words)[|Join(words)| - 1])
  {
    assert IsWord(words[0]);
    if |words| > 1 {
      JoinEnds(words[1..]);
      var tail := Join(words[1..]);
      assert Join(words)[|Join(words)| - 1] == tail[|tail| - 1];
    }
  }

  lemma StripEdges(text: string, before: bool, after: bool)
    requires text != [] && !IsSpace(text[0]) && !IsSpace(text[|text| - 1])
    ensures Strip(Edge(before) + text + Edge(after)) == text
  {
    var tail := text + Edge(after);
    assert tail[0] == text[0];
    assert StripLeft(tail) == tail;
    if before {
      assert (" " + text + Edge(after))[1..] == tail;
      assert StripLeft(" " + text + Edge(after)) == StripLeft(tail);
    } else {
      assert Edge(before) + text + Edge(after) == tail;
    }
    if after {
      assert tail[..|tail| - 1] == text && tail[|tail| - 1] == ' ';
      assert StripRight(tail) == StripRight(text) == text;
    } else {
      assert tail == text;
    }
  }

  // Normalising is reading off the words and joining them with single spaces.
  lemma NormalizedIsWords(s: string)
    ensures NormalizeWhitespace(s) == Join(Words(s))
  {
    hide Collapsed, Strip, Words, Join;
    if s == [] {
      NothingNormalized();
    } else {
      WordsAreWords(s);
      var after := IsSpace(s[|s| - 1]);
      if IsSpace(s[0]) { CollapsedFromSpace(s); } else { CollapsedFromWord(s); }
      if Words(s) == [] {
        NothingNormalized();
      } else {
        JoinEnds(Words(s));
        StripEdges(Join(Words(s)), IsSpace(s[0]), after);
        assert "" + Join(Words(s)) + Edge(after) == Join(Words(s)) + Edge(after);
      }
    }
  }

  lemma NothingNormalized()
    ensures Strip(" ") == Strip(Collapsed("")) == "" == Join([]) && Words("") == []
  {
    assert " "[1..] == "";
  }
}
