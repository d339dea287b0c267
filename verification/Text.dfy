/** Trimming white space from both ends, as strings.TrimSpace and .whitespacesAndNewlines do. */
module Text {
  /** The characters with the Unicode White_Space property. */
  predicate IsSpace(c: char) {
    || '\t' <= c <= '\r' || c == ' ' || c == '\U{85}' || c == '\U{A0}' || c == '\U{1680}'
    || '\U{2000}' <= c <= '\U{200A}'
    || c == '\U{2028}' || c == '\U{2029}' || c == '\U{202F}' || c == '\U{205F}' || c == '\U{3000}'
  }

  predicate Trimmed(s: string) {
    s == "" || (!IsSpace(s[0]) && !IsSpace(s[|s| - 1]))
  }

  function Trim(s: string): (r: string)
    ensures Trimmed(r)
    ensures Trimmed(s) ==> r == s
  {
    if s == "" then ""
    else if IsSpace(s[0]) then Trim(s[1..])
    else if IsSpace(s[|s| - 1]) then Trim(s[..|s| - 1])
    else s
  }

  ghost predicate Blank(s: string) {
    forall c <- s :: IsSpace(c)
  }

  ghost predicate IsMiddle(s: string, r: string, front: string, back: string) {
    s == front + r + back && Blank(front) && Blank(back)
  }

  lemma MiddleGrows(c: char, s: string, r: string, front: string, back: string)
    requires IsMiddle(s, r, front, back) && IsSpace(c)
    ensures IsMiddle([c] + s, r, [c] + front, back) && IsMiddle(s + [c], r, front, back + [c])
  {
    assert [c] + s == [c] + front + r + back && s + [c] == front + r + (back + [c]);
  }

  /** Only white space is cut off, and only at the ends. */
  lemma {:induction false} TrimIsMiddle(s: string) returns (front: string, back: string)
    ensures IsMiddle(s, Trim(s), front, back)
  {
    front, back := "", "";
    if s != "" && IsSpace(s[0]) {
      front, back := TrimIsMiddle(s[1..]);
      MiddleGrows(s[0], s[1..], Trim(s), front, back);
      front := [s[0]] + front;
      assert s == [s[0]] + s[1..];
    } else if s != "" && IsSpace(s[|s| - 1]) {
      var init, c := s[..|s| - 1], s[|s| - 1];
      front, back := TrimIsMiddle(init);
      MiddleGrows(c, init, Trim(s), front, back);
      back := back + [c];
      assert s == init + [c];
    }
  }

  /** Blanks, tabs and line ends are cut off at either end; letters, digits and signs are not. */
  lemma {:induction false} TrimsCommonSpace(s: string, c: char)
    ensures c in {' ', '\t', '\n', '\r'} ==> Trim([c] + s) == Trim(s)
    ensures '!' <= c <= '~' ==> !IsSpace(c) && Trim([c]) == [c]
  {
    assert ([c] + s)[1..] == s;
    assert '!' <= c <= '~' ==> Trimmed([c]);
  }
}
