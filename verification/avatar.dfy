/** The initials an `Avatar` shows when it has no image
    (components/ui/Avatar.tsx): the first character of every space-separated
    piece of the name, upper-cased. */
module Avatar {
  import opened Wrappers
  import opened Strings

  /** `pieces.map(n => n[0]).join('')`: an empty piece maps to `undefined`,
      which `join` writes as nothing. */
  function FirstChars(pieces: seq<string>): (r: string)
    ensures |r| <= |pieces|
    ensures forall k :: 0 <= k < |pieces| && |pieces[k]| > 0 ==> pieces[k][0] in r
  {
    if |pieces| == 0 then ""
    else (if |pieces[0]| > 0 then [pieces[0][0]] else "") + FirstChars(pieces[1..])
  }

  /** Reference definition on the name itself: the non-space characters that
      start the string (when `atStart`) or follow a space. */
  function WordStarts(s: string, atStart: bool): (r: string)
    ensures |r| <= |s|
    ensures ' ' !in r
  {
    if |s| == 0 then ""
    else (if atStart && s[0] != ' ' then [s[0]] else "") + WordStarts(s[1..], s[0] == ' ')
  }

  /** Splitting on spaces and taking first characters picks exactly the word
      starts; the pieces after the first pick those that follow a space. */
  lemma {:induction false} SplitFirstChars(s: string)
    ensures FirstChars(Split(s, ' ')) == WordStarts(s, true)
    ensures FirstChars(Split(s, ' ')[1..]) == WordStarts(s, false)
  {
    if |s| > 0 {
      var rest := Split(s[1..], ' ');
      SplitFirstChars(s[1..]);
      if s[0] == ' ' {
        assert Split(s, ' ') == [""] + rest;
        assert ([""] + rest)[1..] == rest;
      } else {
        var pieces := [[s[0]] + rest[0]] + rest[1..];
        assert Split(s, ' ') == pieces;
        assert pieces[1..] == rest[1..];
      }
    }
  }

  /** `toUpperCase` on one character, for the ASCII letters. */
  function Upper(c: char): (u: char)
    ensures 'a' <= c <= 'z' ==> 'A' <= u <= 'Z' && u as int == c as int - 32
    ensures !('a' <= c <= 'z') ==> u == c
  {
    if 'a' <= c <= 'z' then (c as int - 32) as char else c
  }

  /** `toUpperCase()` on a string, for the ASCII letters: no lower-case letter
      is left, each one is replaced by its capital in place, and every other
      character is kept. */
  function UpperCase(s: string): (r: string)
    ensures |r| == |s|
    ensures forall i :: 0 <= i < |r| ==> !('a' <= r[i] <= 'z')
    ensures forall i :: 0 <= i < |s| && 'a' <= s[i] <= 'z' ==> r[i] as int == s[i] as int - 32
    ensures forall i :: 0 <= i < |s| && !('a' <= s[i] <= 'z') ==> r[i] == s[i]
  {
    seq(|s|, i requires 0 <= i < |s| => Upper(s[i]))
  }

  /** Upper-casing twice is upper-casing once, and it distributes over
      concatenation: the initials can be upper-cased one at a time. */
  lemma UpperCaseIdempotent(s: string, t: string)
    ensures UpperCase(UpperCase(s)) == UpperCase(s)
    ensures UpperCase(s + t) == UpperCase(s) + UpperCase(t)
  {
    var u := UpperCase(s);
    assert forall i :: 0 <= i < |u| ==> UpperCase(u)[i] == u[i];
    var st := s + t;
    assert forall i :: 0 <= i < |st| ==> UpperCase(st)[i] == (UpperCase(s) + UpperCase(t))[i];
  }

  /** The initials for an optional name; an absent or empty name is falsy. */
  function Initials(name: Option<string>): (r: string)
    ensures name == None || name == Some("") ==> r == ""
    ensures name.Some? ==> |r| <= |name.value|
    ensures forall i :: 0 <= i < |r| ==> r[i] != ' ' && !('a' <= r[i] <= 'z')
  {
    match name
    case None => ""
    case Some(n) =>
      if n == "" then ""
      else
        SplitFirstChars(n);
        UpperCase(FirstChars(Split(n, ' ')))
  }

  /** The initials are the upper-cased word starts of the name, so repeated,
      leading and trailing spaces contribute nothing. */
  lemma InitialsAreWordStarts(name: string)
    ensures Initials(Some(name)) == UpperCase(WordStarts(name, true))
  {
    SplitFirstChars(name);
  }

  /** Doubled and trailing spaces add no initial. */
  lemma InitialsExample()
    ensures Initials(Some("a  b ")) == "AB"
  {
    InitialsAreWordStarts("a  b ");
    WordStartsExample();
    assert UpperCase("ab") == "AB";
  }

  lemma WordStartsExample()
    ensures WordStarts("a  b ", true) == "ab"
  {
    var s := "a  b ";
    assert WordStarts(s[4..], false) == "";
    assert WordStarts(s[3..], true) == "b";
    assert WordStarts(s[2..], true) == "b";
    assert WordStarts(s[1..], false) == "b";
  }
}
