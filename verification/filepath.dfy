/** `filepath.Join` on a slash-separated file system, without the final `Clean`. */
module FilePath {

  const Separator: char := '/'

  /** Joins the non-empty elements of `parts` with one separator between neighbours. */
  function Join(parts: seq<string>): (r: string)
    ensures r == "" <==> forall i :: 0 <= i < |parts| ==> parts[i] == ""
    decreases |parts|
  {
    if |parts| == 0 then ""
    else
      var rest := Join(parts[1..]);
      if parts[0] == "" then rest
      else if rest == "" then parts[0]
      else parts[0] + [Separator] + rest
  }

  /** With every element non-empty, two or three elements join to the plain slash-separated path. */
  lemma JoinTwo(a: string, b: string)
    requires a != "" && b != ""
    ensures Join([a, b]) == a + "/" + b
  {
  }

  lemma JoinThree(a: string, b: string, c: string)
    requires a != "" && b != "" && c != ""
    ensures Join([a, b, c]) == a + "/" + b + "/" + c
  {
    assert [a, b, c][1..] == [b, c];
    JoinTwo(b, c);
  }

  /** An empty middle element is dropped, not turned into a double separator. */
  lemma JoinEmptyMiddle(a: string, c: string)
    requires a != "" && c != ""
    ensures Join([a, "", c]) == a + "/" + c
  {
    assert [a, "", c][1..] == ["", c];
    assert ["", c][1..] == [c];
    assert [c][1..] == [];
    assert Join([c]) == c;
    assert Join(["", c]) == c;
  }
}
