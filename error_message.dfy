/** The list of error conditions that VPManager::set_status appends to the
    text of its KernelException: every entry is written as a blank, the
    entry's text and a full stop. Render builds that list; Parse reads it
    back, so that the message can be shown to hold exactly the entries it
    was built from, in order. */
module ErrorMessage {

  /** The entries `e1, e2, ...` written one after the other as " e1. e2." */
  function Render(entries: seq<string>): string
  {
    if entries == [] then "" else " " + entries[0] + "." + Render(entries[1..])
  }

  /** Appending one entry to the list appends its rendering to the text:
      this is how a loop that extends the message entry by entry builds Render. */
  lemma {:induction false} RenderSnoc(entries: seq<string>, e: string)
    ensures Render(entries + [e]) == Render(entries) + " " + e + "."
  {
    if entries == [] {
      assert entries + [e] == [e];
    } else {
      assert (entries + [e])[1..] == entries[1..] + [e];
      RenderSnoc(entries[1..], e);
    }
  }

  predicate DotFree(s: string)
  {
    forall j :: 0 <= j < |s| ==> s[j] != '.'
  }

  /** Index of the first full stop in `s`, or |s| when there is none. */
  function FirstDot(s: string): (i: nat)
    ensures i <= |s|
    ensures i < |s| ==> s[i] == '.'
    ensures forall j :: 0 <= j < i ==> s[j] != '.'
  {
    if s == [] then 0 else if s[0] == '.' then 0 else 1 + FirstDot(s[1..])
  }

  /** Reads a rendered list back into its entries; a text that is not of
      the rendered shape ends the list. */
  function Parse(s: string): seq<string>
    decreases |s|
  {
    if |s| == 0 || s[0] != ' ' then []
    else
      var i := 1 + FirstDot(s[1..]);
      if i == |s| then [] else [s[1..i]] + Parse(s[i + 1..])
  }

  /** An entry without a full stop in it is read back whole, and reading
      continues right after its full stop. */
  lemma ParseEntry(e: string, rest: string)
    requires DotFree(e)
    ensures Parse(" " + e + "." + rest) == [e] + Parse(rest)
  {
    var s := " " + e + "." + rest;
    assert s[1..] == e + "." + rest;
    var d := FirstDot(s[1..]);
    assert s[1..][|e|] == '.';
    assert d == |e|;
    assert s[1..1 + d] == e;
    assert s[1 + d + 1..] == rest;
  }

  /** Round trip: reading a rendered list gives back the same entries, in
      the same order, provided no entry contains a full stop. */
  lemma {:induction false} ParseRender(entries: seq<string>)
    requires forall i :: 0 <= i < |entries| ==> DotFree(entries[i])
    ensures Parse(Render(entries)) == entries
  {
    if entries != [] {
      ParseEntry(entries[0], Render(entries[1..]));
      ParseRender(entries[1..]);
    }
  }
}
