/** White space on the monitor's command line. */
module MonitorText {

  predicate IsSpace(c: char) {
    c == ' ' || '\t' <= c <= '\r'
  }

  predicate Blank(s: string) {
    forall i | 0 <= i < |s| :: IsSpace(s[i])
  }

  function SkipSpaces(s: string): (r: string)
    ensures |r| <= |s|
  {
    if s != "" && IsSpace(s[0]) then SkipSpaces(s[1..]) else s
  }

  lemma {:induction false} SkipBlank(gap: string, s: string)
    requires Blank(gap) && (s == "" || !IsSpace(s[0]))
    ensures SkipSpaces(gap + s) == s
  {
    hide IsSpace;
    if gap != "" {
      assert gap + s == [gap[0]] + (gap[1..] + s);
      SkipBlank(gap[1..], s);
    } else {
      assert gap + s == s;
    }
  }

  // What is skipped.
  function LeadingBlank(s: string): (gap: string)
    ensures |gap| <= |s|
  {
    if s != "" && IsSpace(s[0]) then [s[0]] + LeadingBlank(s[1..]) else ""
  }

  lemma {:induction false} BlankSkipped(s: string)
    ensures Blank(LeadingBlank(s)) && s == LeadingBlank(s) + SkipSpaces(s)
    ensures SkipSpaces(s) == "" || !IsSpace(SkipSpaces(s)[0])
  {
    if s != "" && IsSpace(s[0]) {
      BlankSkipped(s[1..]);
      hide IsSpace;
      assert s == [s[0]] + s[1..];
    }
  }
}
