/** `Settings.cors_origins_list`: the comma-separated origins setting as a list. */
module Config {
  import opened Text
  import opened Seqs

  /** The default of the `cors_origins` setting. */
  const DefaultCorsOrigins: string := "http://localhost:3000"

  /** `[origin.strip() for origin in cors_origins.split(",")]`. */
  function CorsOriginsList(corsOrigins: string): seq<string> {
    Map(SplitOn(corsOrigins, ','), Strip)
  }

  /** One entry per comma-separated piece (so never empty, and empty pieces are kept), each the
      stripped text of the piece at the same position of the split. */
  lemma CorsOriginsListSpec(corsOrigins: string)
    ensures |CorsOriginsList(corsOrigins)| == CountChar(corsOrigins, ',') + 1
    ensures forall k :: 0 <= k < |CorsOriginsList(corsOrigins)| ==>
      Stripped(CorsOriginsList(corsOrigins)[k]) &&
      CorsOriginsList(corsOrigins)[k] == Strip(SplitOn(corsOrigins, ',')[k]) &&
      ',' !in CorsOriginsList(corsOrigins)[k]
  {
    var pieces := SplitOn(corsOrigins, ',');
    SplitCount(corsOrigins, ',');
    SplitPiecesFree(corsOrigins, ',');
    forall k | 0 <= k < |pieces|
      ensures Stripped(Strip(pieces[k])) && ',' !in Strip(pieces[k])
    {
      StripSpec(pieces[k]);
    }
  }

  /** A setting with no comma and no surrounding whitespace is a single origin. */
  lemma SingleOrigin(s: string)
    requires ',' !in s && Stripped(s)
    ensures CorsOriginsList(s) == [s]
  {
    SplitNoSeparator(s, ',');
    StripIdempotent(s);
  }

  /** With the default setting the list is the single local development origin. */
  lemma DefaultCorsOriginsList()
    ensures CorsOriginsList(DefaultCorsOrigins) == [DefaultCorsOrigins]
  {
    var s := DefaultCorsOrigins;
    assert ',' !in s by {
      assert forall i :: 0 <= i < |s| ==> s[i] != ',';
    }
    assert Stripped(s) by {
      assert s[0] == 'h' && s[|s| - 1] == '0';
    }
    SingleOrigin(s);
  }

  /** An empty entry between two commas survives as an empty origin. */
  lemma EmptyEntriesKept()
    ensures CorsOriginsList("a, ,b") == ["a", "", "b"]
  {
    var pieces := SplitOn("a, ,b", ',');
    SplitExample();
    BlankStripsToEmpty();
    StripIdempotent("a");
    StripIdempotent("b");
    assert Map(pieces, Strip) == [Strip("a"), Strip(" "), Strip("b")];
  }

  lemma SplitExample()
    ensures SplitOn("a, ,b", ',') == ["a", " ", "b"]
  {
    assert "a, ,b" == "a" + [','] + (" " + [','] + "b");
    SplitNoSeparator("b", ',');
    SplitAtFirst(" ", "b", ',');
    SplitAtFirst("a", " ,b", ',');
  }

  lemma BlankStripsToEmpty()
    ensures Strip(" ") == ""
  {
    var blank: string := [' '];
    assert IsSpace(blank[0]) && blank[1..] == [];
    assert TrimStart(blank) == TrimStart([]) == [];
  }
}
