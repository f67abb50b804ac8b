/** Title selection for one exported item (export.py:87-93):
    `titles.get("en") or titles.get("ja-ro") or titles.get("ja") or
    next(titles.values())`.

    `or` passes over a missing key (None) and over an empty string alike.
    The last alternative applies `next` to a dict view, which is not an
    iterator, so Python raises TypeError whenever none of the three
    preferred languages holds a non-empty title: it never picks "an
    arbitrary remaining value". */
module Titles {
  import opened Wrappers
  import opened PyDict

  type Lang = string

  /** The languages tried, in order of preference. */
  const PreferredLanguages: seq<Lang> := ["en", "ja-ro", "ja"]

  datatype TitleError =
    /** `next(titles.values())` raised TypeError. */
    | NoPreferredTitle

  /** `titles.get(lang)` is a true value: present and non-empty. */
  predicate Usable(titles: Dict<Lang, string>, lang: Lang)
  {
    match Get(titles, lang)
    case Some(t) => t != ""
    case None => false
  }

  /** The first language of `langs` with a usable title, as `a or b or ...`
      evaluates it. */
  function FirstUsable(titles: Dict<Lang, string>, langs: seq<Lang>): (r: Option<string>)
    ensures r.None? <==> forall i :: 0 <= i < |langs| ==> !Usable(titles, langs[i])
    ensures r.Some? ==>
      exists i :: 0 <= i < |langs| && Get(titles, langs[i]) == Some(r.value) && r.value != "" &&
        forall j :: 0 <= j < i ==> !Usable(titles, langs[j])
  {
    if langs == [] then None
    else if Usable(titles, langs[0]) then Some(Get(titles, langs[0]).value)
    else
      var tail := langs[1..];
      var r := FirstUsable(titles, tail);
      assert forall i :: 1 <= i < |langs| ==> langs[i] == tail[i - 1];
      if r.Some? then
        var i :| 0 <= i < |tail|
          && Get(titles, tail[i]) == Some(r.value) && r.value != ""
          && forall j :: 0 <= j < i ==> !Usable(titles, tail[j]);
        assert Get(titles, langs[i + 1]) == Some(r.value);
        assert forall j :: 0 <= j < i + 1 ==> !Usable(titles, langs[j]);
        r
      else r
  }

  /** The title the exporter records. */
  function SelectTitle(titles: Dict<Lang, string>): (r: Result<string, TitleError>)
    ensures Usable(titles, "en") ==> r == Success(Get(titles, "en").value)
    ensures !Usable(titles, "en") && Usable(titles, "ja-ro") ==> r == Success(Get(titles, "ja-ro").value)
    ensures !Usable(titles, "en") && !Usable(titles, "ja-ro") && Usable(titles, "ja") ==>
      r == Success(Get(titles, "ja").value)
    ensures !Usable(titles, "en") && !Usable(titles, "ja-ro") && !Usable(titles, "ja") ==>
      r == Failure(NoPreferredTitle)
  {
    assert PreferredLanguages[0] == "en" && PreferredLanguages[1] == "ja-ro" && PreferredLanguages[2] == "ja";
    match FirstUsable(titles, PreferredLanguages)
    case Some(t) => Success(t)
    case None => Failure(NoPreferredTitle)
  }

  /** Title examples: English first, then
      romanised Japanese, then Japanese past an empty English title. */
  lemma TitleEnglishFirst()
    ensures SelectTitle([("en", "A"), ("ja-ro", "B")]) == Success("A")
  {
    assert Get([("en", "A"), ("ja-ro", "B")], "en") == Some("A");
  }

  lemma TitleRomajiNext()
    ensures SelectTitle([("ja-ro", "B"), ("ja", "C")]) == Success("B")
  {
    var t: Dict<Lang, string> := [("ja-ro", "B"), ("ja", "C")];
    assert Get(t, "en") == None by { assert t[1..][1..] == []; }
    assert Get(t, "ja-ro") == Some("B");
  }

  lemma TitleSkipsEmpty()
    ensures SelectTitle([("en", ""), ("ja", "C")]) == Success("C")
  {
    var t: Dict<Lang, string> := [("en", ""), ("ja", "C")];
    assert Get(t, "ja-ro") == None by { assert t[1..][1..] == []; }
    assert Get(t, "ja") == Some("C") by { assert t[1..][0] == ("ja", "C"); }
  }

  /** Only a title in another language: the program fails rather than
      returning "D". */
  lemma TitleNoPreferred()
    ensures SelectTitle([("fr", "D")]) == Failure(NoPreferredTitle)
  {
    var t: Dict<Lang, string> := [("fr", "D")];
    assert Get(t, "en") == None && Get(t, "ja-ro") == None && Get(t, "ja") == None by {
      assert t[1..] == [];
    }
  }
}
