/**
 * The municipality name normalizer of `_linkMunicipalities`: three global
 * regular-expression replacements, applied in order to the raw name and
 * reproduced as written, then the alias table, keyed on the raw name, which
 * overrides them. The link shows the raw name and targets the normalized
 * one.
 */
module Normalizer {
  import opened Wrappers
  import opened JsStrings
  import opened Bulletin

  // ---------------------------------------------------------------------
  // The first two rewrites replace "Sta" by "Santa" and "Sto" by "Santo",
  // everywhere. The dot after the stem is not escaped, so the pattern is the
  // three-letter stem followed by ANY character other than a line
  // terminator, and that character is replaced too.

  /** The pattern `/<stem>./` matches at index `i` of `s`. */
  predicate AbbreviationAt(s: string, i: nat, stem: string)
    requires |stem| == 3
  {
    && i + 4 <= |s|
    && s[i] == stem[0] && s[i + 1] == stem[1] && s[i + 2] == stem[2]
    && !IsLineTerminator(s[i + 3])
  }

  /** The global replacement, scanning left to right from index `i`. */
  function ReplaceAbbreviationFrom(s: string, i: nat, stem: string, expansion: string): string
    requires |stem| == 3 && i <= |s|
    decreases |s| - i
  {
    if i == |s| then ""
    else if AbbreviationAt(s, i, stem) then expansion + ReplaceAbbreviationFrom(s, i + 4, stem, expansion)
    else [s[i]] + ReplaceAbbreviationFrom(s, i + 1, stem, expansion)
  }

  function ReplaceAbbreviation(s: string, stem: string, expansion: string): string
    requires |stem| == 3
  {
    ReplaceAbbreviationFrom(s, 0, stem, expansion)
  }

  // ---------------------------------------------------------------------
  // The third rewrite deletes, everywhere in the name, one or more compass
  // roots ("east", "north", "south", "west") followed by "ern" and one white
  // space character. It is lower-case only. At a given index at most one
  // root can match (they start with different letters), and giving back a
  // root never lets "ern" match (the only root starting with 'e' continues
  // with 'a'), so the match at an index is the longest run of roots, then
  // "ern", then one white space character.

  /** The length of the compass root ("east", "north", "south" or "west") at index `i`, or 0. */
  function RootAt(s: string, i: nat): (n: nat)
    requires i <= |s|
    ensures n == 0 || n == 4 || n == 5
    ensures i + n <= |s|
  {
    if i == |s| then 0
    else if s[i] == 'e' then
      if i + 4 <= |s| && s[i + 1] == 'a' && s[i + 2] == 's' && s[i + 3] == 't' then 4 else 0
    else if s[i] == 'n' then
      if i + 5 <= |s| && s[i + 1] == 'o' && s[i + 2] == 'r' && s[i + 3] == 't' && s[i + 4] == 'h' then 5 else 0
    else if s[i] == 's' then
      if i + 5 <= |s| && s[i + 1] == 'o' && s[i + 2] == 'u' && s[i + 3] == 't' && s[i + 4] == 'h' then 5 else 0
    else if s[i] == 'w' then
      if i + 4 <= |s| && s[i + 1] == 'e' && s[i + 2] == 's' && s[i + 3] == 't' then 4 else 0
    else 0
  }

  /** The length of the longest run of compass roots starting at index `i`. */
  function RootsFrom(s: string, i: nat): (n: nat)
    requires i <= |s|
    ensures i + n <= |s|
    decreases |s| - i
  {
    var r := RootAt(s, i);
    if r == 0 then 0 else r + RootsFrom(s, i + r)
  }

  /** The length of the match of the directional pattern at index `i`, or 0 when it does not match there. */
  function DirectionAt(s: string, i: nat): (n: nat)
    requires i <= |s|
    ensures n == 0 || (n >= 8 && i + n <= |s|)
  {
    var roots := RootsFrom(s, i);
    var j := i + roots;
    if roots > 0 && j + 4 <= |s| && s[j] == 'e' && s[j + 1] == 'r' && s[j + 2] == 'n' && IsWhiteSpace(s[j + 3])
    then roots + 4
    else 0
  }

  function StripDirectionsFrom(s: string, i: nat): string
    requires i <= |s|
    decreases |s| - i
  {
    if i == |s| then ""
    else
      var n := DirectionAt(s, i);
      if n > 0 then StripDirectionsFrom(s, i + n) else [s[i]] + StripDirectionsFrom(s, i + 1)
  }

  function StripDirections(s: string): string
  {
    StripDirectionsFrom(s, 0)
  }

  /** The three rewrites, in the order the source chains them. */
  function Rewritten(name: string): string
  {
    StripDirections(ReplaceAbbreviation(ReplaceAbbreviation(name, "Sta", "Santa"), "Sto", "Santo"))
  }

  /** The table of known misspellings in bulletins, keyed on the raw name. */
  const Aliases: map<string, string> := map[
    "Albuena" := "Albuera",
    "San Jose Del Monte" := "San Jose del Monte",
    "Dinapugue" := "Dinapigue",
    "Macallelon" := "Macalelon",
    "Tagkayawan" := "Tagkawayan"
  ]

  /** The page a municipality links to (before its ", <province>" part). */
  function LinkTarget(name: string): string
  {
    if name in Aliases then Aliases[name] else Rewritten(name)
  }

  /** `[[<target>, <province>|<raw name>]]` */
  function MunicipalityLink(name: string, province: string): string
  {
    "[[" + LinkTarget(name) + ", " + province + "|" + name + "]]"
  }

  /** `municipalities.map(...)`: one link per municipality, in order. */
  function MunicipalityLinks(names: seq<string>, province: string): (links: seq<string>)
    ensures |links| == |names|
    ensures forall i :: 0 <= i < |names| ==> links[i] == MunicipalityLink(names[i], province)
  {
    seq(|names|, i requires 0 <= i < |names| => MunicipalityLink(names[i], province))
  }

  /**
   * `_linkMunicipalities`: nothing when the list is missing or empty,
   * otherwise the links joined by ", " in a small-text parenthesis.
   */
  function LinkMunicipalities(includes: Includes, province: string): (r: string)
    ensures r == "" <==> includes.municipalities.None? || includes.municipalities.value == []
  {
    match includes.municipalities
    case Some(names) =>
      if |names| > 0 then " {{small|(" + Join(MunicipalityLinks(names, province), ", ") + ")}}" else ""
    case None => ""
  }

  /** The links of `names`, each after the one before it and a ", ", read from the last name back. */
  function CommaSeparated(names: seq<string>, province: string): string
    requires names != []
    decreases |names|
  {
    if |names| == 1 then MunicipalityLink(names[0], province)
    else CommaSeparated(names[..|names| - 1], province) + ", " + MunicipalityLink(names[|names| - 1], province)
  }

  // ---------------------------------------------------------------------
  // Properties.

  /** Where the abbreviation pattern never matches, the replacement leaves the text alone. */
  lemma {:induction false} AbbreviationFreeUnchanged(s: string, i: nat, stem: string, expansion: string)
    requires |stem| == 3 && i <= |s|
    requires forall j :: i <= j < |s| ==> !AbbreviationAt(s, j, stem)
    ensures ReplaceAbbreviationFrom(s, i, stem, expansion) == s[i..]
    decreases |s| - i
  {
    if i < |s| {
      AbbreviationFreeUnchanged(s, i + 1, stem, expansion);
      assert s[i..] == [s[i]] + s[i + 1..];
    }
  }

  /** Where the directional pattern never matches, stripping leaves the text alone. */
  lemma {:induction false} DirectionFreeUnchanged(s: string, i: nat)
    requires i <= |s|
    requires forall j :: i <= j < |s| ==> DirectionAt(s, j) == 0
    ensures StripDirectionsFrom(s, i) == s[i..]
    decreases |s| - i
  {
    if i < |s| {
      DirectionFreeUnchanged(s, i + 1);
      assert s[i..] == [s[i]] + s[i + 1..];
    }
  }

  /**
   * A name outside the alias table in which none of the three patterns
   * matches links to itself.
   */
  lemma PlainNameLinksToItself(name: string)
    requires name !in Aliases
    requires forall j :: 0 <= j < |name| ==> !AbbreviationAt(name, j, "Sta")
    requires forall j :: 0 <= j < |name| ==> !AbbreviationAt(name, j, "Sto")
    requires forall j :: 0 <= j < |name| ==> DirectionAt(name, j) == 0
    ensures LinkTarget(name) == name
  {
    AbbreviationFreeUnchanged(name, 0, "Sta", "Santa");
    AbbreviationFreeUnchanged(name, 0, "Sto", "Santo");
    DirectionFreeUnchanged(name, 0);
  }

  /** The alias table decides the target whatever the rewrites would give. */
  lemma AliasWins(name: string)
    requires name in Aliases
    ensures LinkTarget(name) == Aliases[name]
    ensures name == "Albuena" ==> LinkTarget(name) == "Albuera"
  {
  }

  /** Each link shows the raw name, whatever its target. */
  lemma LinkShowsRawName(name: string, province: string)
    ensures EndsWith(MunicipalityLink(name, province), "|" + name + "]]")
  {
    var link := MunicipalityLink(name, province);
    assert link == ("[[" + LinkTarget(name) + ", " + province) + ("|" + name + "]]");
  }

  /** Two municipalities: both links, in order, joined by ", ". */
  lemma TwoMunicipalities(term: string, part: Option<string>, first: string, second: string, province: string)
    ensures LinkMunicipalities(Includes(term, part, Some([first, second])), province)
      == " {{small|(" + MunicipalityLink(first, province) + ", " + MunicipalityLink(second, province) + ")}}"
  {
    var links := MunicipalityLinks([first, second], province);
    assert Join(links, ", ") == links[0] + ", " + Join(links[1..], ", ");
    assert Join(links[1..], ", ") == links[1];
  }

  /** The links of one more name are the links before it and its own. */
  lemma LinksSnoc(names: seq<string>, name: string, province: string)
    ensures MunicipalityLinks(names + [name], province) == MunicipalityLinks(names, province) + [MunicipalityLink(name, province)]
  {
    var links := MunicipalityLinks(names + [name], province);
    var expected := MunicipalityLinks(names, province) + [MunicipalityLink(name, province)];
    assert |links| == |expected|;
    forall i | 0 <= i < |links|
      ensures links[i] == expected[i]
    {
      assert (names + [name])[i] == if i < |names| then names[i] else name;
    }
  }

  /** The joined links are the comma-separated links, whatever the number of names. */
  lemma {:induction false} LinksJoined(names: seq<string>, province: string)
    requires names != []
    ensures Join(MunicipalityLinks(names, province), ", ") == CommaSeparated(names, province)
    decreases |names|
  {
    if |names| == 1 {
      assert Join(MunicipalityLinks(names, province), ", ") == MunicipalityLinks(names, province)[0];
    } else {
      var init, last := names[..|names| - 1], names[|names| - 1];
      assert names == init + [last];
      LinksJoined(init, province);
      LinksSnoc(init, last, province);
      JoinSnoc(MunicipalityLinks(init, province), MunicipalityLink(last, province), ", ");
      assert CommaSeparated(names, province) == CommaSeparated(init, province) + ", " + MunicipalityLink(last, province);
    }
  }

  /** Any non-empty list of municipalities: their links, separated by ", ", inside ` {{small|(` and `)}}`. */
  lemma MunicipalitiesWrapped(includes: Includes, province: string)
    requires includes.municipalities.Some? && includes.municipalities.value != []
    ensures LinkMunicipalities(includes, province)
      == " {{small|(" + CommaSeparated(includes.municipalities.value, province) + ")}}"
  {
    LinksJoined(includes.municipalities.value, province);
  }

  /** A text in which no compass root starts anywhere is left alone by the directional pattern. */
  lemma RootFreeUnchanged(s: string)
    requires forall j :: 0 <= j < |s| ==> RootAt(s, j) == 0
    ensures StripDirections(s) == s
  {
    DirectionFreeUnchanged(s, 0);
  }

  /** "Sta." is expanded, the character after the stem included. */
  lemma SantaExpanded()
    ensures ReplaceAbbreviation("Sta. Ana", "Sta", "Santa") == "Santa Ana"
  {
    var s := "Sta. Ana";
    assert AbbreviationAt(s, 0, "Sta");
    AbbreviationFreeUnchanged(s, 4, "Sta", "Santa");
    assert s[4..] == " Ana";
  }

  /** "Santa Ana" holds neither "Sto" nor a compass root. */
  lemma SantaAnaStable()
    ensures ReplaceAbbreviation("Santa Ana", "Sto", "Santo") == "Santa Ana"
    ensures StripDirections("Santa Ana") == "Santa Ana"
  {
    var t := "Santa Ana";
    AbbreviationFreeUnchanged(t, 0, "Sto", "Santo");
    assert forall j :: 0 <= j < |t| ==> RootAt(t, j) == 0 by {
      assert t[2] == 'n' && t[3] == 't';
      assert t[7] == 'n' && t[8] == 'a';
    }
    RootFreeUnchanged(t);
  }

  /** Neither example name is in the alias table. */
  lemma ExamplesNotAliased()
    ensures "Sta. Ana" !in Aliases && "Sto Tomas" !in Aliases
  {
    assert "Sta. Ana"[0] == 'S' && "Sto Tomas"[0] == 'S';
  }

  /** A name outside the alias table links to what the three rewrites make of it, step by step. */
  lemma LinkTargetByRewrites(name: string, afterSta: string, afterSto: string, target: string)
    requires name !in Aliases
    requires ReplaceAbbreviation(name, "Sta", "Santa") == afterSta
    requires ReplaceAbbreviation(afterSta, "Sto", "Santo") == afterSto
    requires StripDirections(afterSto) == target
    ensures LinkTarget(name) == target
  {
  }

  /** `Sta. Ana` links to `Santa Ana`. */
  lemma SantaExample()
    ensures LinkTarget("Sta. Ana") == "Santa Ana"
  {
    SantaExpanded();
    SantaAnaStable();
    ExamplesNotAliased();
    LinkTargetByRewrites("Sta. Ana", "Santa Ana", "Santa Ana", "Santa Ana");
  }

  /** Without a dot, the stem still swallows the next character. */
  lemma StoWithoutDotExpanded()
    ensures ReplaceAbbreviation("Sto Tomas", "Sta", "Santa") == "Sto Tomas"
    ensures ReplaceAbbreviation("Sto Tomas", "Sto", "Santo") == "SantoTomas"
  {
    var s := "Sto Tomas";
    AbbreviationFreeUnchanged(s, 0, "Sta", "Santa");
    assert AbbreviationAt(s, 0, "Sto");
    AbbreviationFreeUnchanged(s, 4, "Sto", "Santo");
    assert s[4..] == "Tomas";
  }

  lemma SantoTomasStable()
    ensures StripDirections("SantoTomas") == "SantoTomas"
  {
    var t := "SantoTomas";
    assert forall j :: 0 <= j < |t| ==> RootAt(t, j) == 0 by {
      assert t[2] == 'n' && t[3] == 't';
      assert t[9] == 's';
    }
    RootFreeUnchanged(t);
  }

  /** `Sto Tomas` links to `SantoTomas`. */
  lemma UnescapedDotExample()
    ensures LinkTarget("Sto Tomas") == "SantoTomas"
  {
    StoWithoutDotExpanded();
    SantoTomasStable();
    ExamplesNotAliased();
    LinkTargetByRewrites("Sto Tomas", "Sto Tomas", "SantoTomas", "SantoTomas");
  }

  /** The lower-case direction and the space after it are removed: `northern Samar` links to `Samar`. */
  lemma LowerCaseDirectionExample()
    ensures StripDirections("northern Samar") == "Samar"
  {
    var s := "northern Samar";
    assert RootAt(s, 0) == 5 && RootAt(s, 5) == 0;
    assert DirectionAt(s, 0) == 9;
    assert forall j :: 9 <= j < |s| ==> DirectionAt(s, j) == 0 by {
      forall j | 9 <= j < |s| ensures RootAt(s, j) == 0 {
      }
    }
    DirectionFreeUnchanged(s, 9);
    assert s[9..] == "Samar";
  }

  /** The pattern is case-sensitive: a capitalised direction stays, `Northern Samar` is left alone. */
  lemma CapitalisedDirectionExample()
    ensures StripDirections("Northern Samar") == "Northern Samar"
  {
    var s := "Northern Samar";
    assert forall j :: 0 <= j < |s| ==> RootAt(s, j) == 0 by {
      assert s[5] == 'e' && s[6] == 'r';
      assert s[7] == 'n' && s[8] == ' ';
    }
    RootFreeUnchanged(s);
  }
}
