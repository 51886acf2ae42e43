/** The command line the adapter hands to `enshrouded_server.exe`. */
module LaunchArgs {
  import opened Settings

  /** `"v"` */
  function Quoted(v: string): string {
    "\"" + v + "\""
  }

  /** `"""v"""`: the name's only wrapping; nothing inside is escaped. */
  function TripleQuoted(v: string): string {
    "\"\"\"" + v + "\"\"\""
  }

  /** `-flag=value` */
  function Switch(flag: string, value: string): string {
    "-" + flag + "=" + value
  }

  /** The argument string, built as the adapter builds it: the extra
      parameters between two spaces, then each switch followed by a space,
      the name switch last with nothing after it. */
  function Arguments(d: ServerConfig): (a: string)
    ensures |a| >= |d.serverParam| + 2 + |d.serverName| + 12
    ensures a[..|d.serverParam| + 2] == " " + d.serverParam + " "
    ensures a[|a| - |d.serverName| - 12..] == "-name=\"\"\"" + d.serverName + "\"\"\""
    ensures a[|a| - |d.serverName| - 3..|a| - 3] == d.serverName
  {
    var param := " " + d.serverParam + " ";
    var param := param + "-ip=\"" + d.serverIP + "\" ";
    var param := param + "-gamePort=" + d.serverPort + " ";
    var param := param + "-queryPort=" + d.serverQueryPort + " ";
    var param := param + "-slotCount=" + d.serverMaxPlayer + " ";
    param + "-name=\"\"\"" + d.serverName + "\"\"\""
  }

  /** The six pieces of the command line, in the order the binary gets them:
      the extra parameters (unparsed), then ip, game port, query port, slot
      count and name. */
  function Tokens(d: ServerConfig): (ts: seq<string>)
    ensures |ts| == 6 && ts[0] == d.serverParam
  {
    [ d.serverParam,
      Switch("ip", Quoted(d.serverIP)),
      Switch("gamePort", d.serverPort),
      Switch("queryPort", d.serverQueryPort),
      Switch("slotCount", d.serverMaxPlayer),
      Switch("name", TripleQuoted(d.serverName)) ]
  }

  /** The pieces separated by single spaces, appended left to right. */
  function Join(ts: seq<string>): string
    decreases |ts|
  {
    if ts == [] then ""
    else if |ts| == 1 then ts[0]
    else Join(ts[..|ts| - 1]) + " " + ts[|ts| - 1]
  }

  /** Cut a string at every space (an independent reading of a command line
      that ignores quoting: consecutive spaces give empty pieces). */
  function Split(s: string): (r: seq<string>)
    ensures |r| >= 1
  {
    if s == [] then [""]
    else if s[0] == ' ' then [""] + Split(s[1..])
    else
      var rest := Split(s[1..]);
      [[s[0]] + rest[0]] + rest[1..]
  }

  /** A piece without spaces is cut into itself alone. */
  lemma {:induction false} SplitNoSpace(s: string)
    requires ' ' !in s
    ensures Split(s) == [s]
  {
    if s != [] {
      SplitNoSpace(s[1..]);
      assert [s[0]] + s[1..] == s;
    }
  }

  /** Cutting at a space splits the result there and nowhere else. */
  lemma {:induction false} SplitAppend(a: string, b: string)
    ensures Split(a + " " + b) == Split(a) + Split(b)
  {
    if a == [] {
      assert a + " " + b == [' '] + b;
      assert (a + " " + b)[1..] == b;
    } else {
      assert (a + " " + b)[1..] == a[1..] + " " + b;
      SplitAppend(a[1..], b);
      if a[0] != ' ' {
        var rest := Split(a[1..] + " " + b);
        assert rest[0] == Split(a[1..])[0];
      }
    }
  }

  /** Joining splits after the first piece as well as before the last. */
  lemma {:induction false} JoinFirst(ts: seq<string>)
    requires |ts| >= 2
    ensures Join(ts) == ts[0] + " " + Join(ts[1..])
    decreases |ts|
  {
    if |ts| > 2 {
      var init := ts[..|ts| - 1];
      JoinFirst(init);
      assert init[1..] == ts[1..][..|ts[1..]| - 1];
    } else {
      assert ts[..1] == [ts[0]];
    }
  }

  /** Joining space-free pieces and cutting again gives the pieces back. */
  lemma {:induction false} SplitJoin(ts: seq<string>)
    requires |ts| >= 1
    requires forall i :: 0 <= i < |ts| ==> ' ' !in ts[i]
    ensures Split(Join(ts)) == ts
    decreases |ts|
  {
    var last := ts[|ts| - 1];
    SplitNoSpace(last);
    if |ts| > 1 {
      var init := ts[..|ts| - 1];
      SplitAppend(Join(init), last);
      SplitJoin(init);
      assert ts == init + [last];
    }
  }

  /** One `+=` of the builder, read as appending one more joined piece. */
  lemma AppendSwitch(j: string, pre: string, v: string, post: string, t: string)
    requires pre + v + post == t + " "
    ensures " " + j + " " + pre + v + post == " " + (j + " " + t) + " "
  {
    calc {
      " " + j + " " + pre + v + post;
      " " + j + " " + (pre + v + post);
      " " + j + " " + (t + " ");
      " " + (j + " " + t) + " ";
    }
  }

  /** The argument string is a leading space followed by the six pieces
      joined by single spaces, extra parameters first and name last. */
  lemma ArgumentsAreJoinedTokens(d: ServerConfig)
    ensures Arguments(d) == " " + Join(Tokens(d))
  {
    var ts := Tokens(d);
    var j1 := Join(ts[..1]);
    assert j1 == ts[0];
    var j2 := Join(ts[..2]);
    assert ts[..2][..1] == ts[..1];
    assert j2 == j1 + " " + ts[1];
    var j3 := Join(ts[..3]);
    assert ts[..3][..2] == ts[..2];
    assert j3 == j2 + " " + ts[2];
    var j4 := Join(ts[..4]);
    assert ts[..4][..3] == ts[..3];
    assert j4 == j3 + " " + ts[3];
    var j5 := Join(ts[..5]);
    assert ts[..5][..4] == ts[..4];
    assert j5 == j4 + " " + ts[4];
    assert ts[..6][..5] == ts[..5];
    assert ts[..6] == ts;
    assert Join(ts) == j5 + " " + ts[5];

    AppendSwitch(j1, "-ip=\"", d.serverIP, "\" ", ts[1]);
    AppendSwitch(j2, "-gamePort=", d.serverPort, " ", ts[2]);
    AppendSwitch(j3, "-queryPort=", d.serverQueryPort, " ", ts[3]);
    AppendSwitch(j4, "-slotCount=", d.serverMaxPlayer, " ", ts[4]);
    calc {
      Arguments(d);
      " " + j5 + " " + "-name=\"\"\"" + d.serverName + "\"\"\"";
      " " + (j5 + " " + ts[5]);
    }
  }

  /** Read back by cutting at spaces, the command line holds the extra
      parameters' own pieces followed by the five switches, one piece each,
      in the fixed order, provided the five values contain no space. */
  lemma ArgumentsTokenise(d: ServerConfig)
    requires ' ' !in d.serverIP && ' ' !in d.serverPort && ' ' !in d.serverQueryPort
    requires ' ' !in d.serverMaxPlayer && ' ' !in d.serverName
    ensures Split(Arguments(d)[1..]) == Split(d.serverParam) + Tokens(d)[1..]
  {
    var ts := Tokens(d);
    assert Arguments(d)[1..] == ts[0] + " " + Join(ts[1..]) by {
      ArgumentsAreJoinedTokens(d);
      JoinFirst(ts);
    }
    assert forall i :: 0 <= i < |ts[1..]| ==> ' ' !in ts[1..][i] by {
      forall i | 1 <= i < 6 ensures ' ' !in ts[i] {
        assert ' ' !in Quoted(d.serverIP);
        assert ' ' !in TripleQuoted(d.serverName);
      }
    }
    SplitAppend(ts[0], Join(ts[1..]));
    SplitJoin(ts[1..]);
  }

  /** An example settings record with the adapter's default ports and
      player count: empty extra parameters, a local address, the name Test. */
  predicate IsExample(d: ServerConfig) {
    && d.serverName == "Test" && d.serverIP == "127.0.0.1"
    && d.serverPort == "15636" && d.serverQueryPort == "15637" && d.serverMaxPlayer == "16"
    && d.serverParam == ""
  }

  /** The six pieces of the example settings. */
  lemma ExampleTokens(d: ServerConfig)
    requires IsExample(d)
    ensures Tokens(d)
      == ["", "-ip=\"127.0.0.1\"", "-gamePort=15636", "-queryPort=15637", "-slotCount=16", "-name=\"\"\"Test\"\"\""]
  {
    var ts := Tokens(d);
    var ip, gp, qp, sc, nm := ts[1], ts[2], ts[3], ts[4], ts[5];
    assert ip == "-ip=\"127.0.0.1\"" by {
      assert Quoted(d.serverIP) == "\"127.0.0.1\"";
    }
    assert gp == "-gamePort=15636";
    assert qp == "-queryPort=15637";
    assert sc == "-slotCount=16";
    assert nm == "-name=\"\"\"Test\"\"\"" by {
      assert TripleQuoted(d.serverName) == "\"\"\"Test\"\"\"";
    }
    assert ts == ["", ip, gp, qp, sc, nm];
  }

  /** Read back, the example's command line holds an empty
      extra-parameter piece and then exactly these five switches in order. */
  lemma ArgumentsExample(d: ServerConfig)
    requires IsExample(d)
    ensures Split(Arguments(d)[1..])
      == ["", "-ip=\"127.0.0.1\"", "-gamePort=15636", "-queryPort=15637", "-slotCount=16", "-name=\"\"\"Test\"\"\""]
  {
    assert Split(Arguments(d)[1..]) == [""] + Tokens(d)[1..] by {
      assert ' ' !in d.serverIP && ' ' !in d.serverName;
      ArgumentsTokenise(d);
      assert Split(d.serverParam) == [""];
    }
    ExampleTokens(d);
  }
}
