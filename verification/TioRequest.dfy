/** The request that carries the results of a command, as its receiver reads it. */
module TioRequest {
  import opened Text
  import opened KhcMachine
  import opened KhcSend
  import opened KhcReceive
  import opened KhcWire
  import opened KhcClient
  import opened KiiBuffer
  import opened KiiApi
  import opened TioCommand

  // ---------------------------------------------------------------------------------------------
  // The target

  /** Between its slashes the path names the application, the thing and the command. */
  lemma PathParts(appId: string, author: string, commandId: string)
    requires '/' !in appId && '/' !in author && '/' !in commandId
    ensures Split(ResultPath(appId, author, commandId), '/') ==
            ["", "thing-if", "apps", appId, "targets", "thing:" + author, "commands", commandId, "action-results"]
  {
    hide Split;
    var g := commandId + "/" + "action-results";
    var f, h := "commands" + "/" + g, "thing:" + author;
    var e := h + "/" + f;
    var d := "targets" + "/" + e;
    var c := appId + "/" + d;
    var b := "apps" + "/" + c;
    PathJoined(appId, author, commandId);
    Part("", "thing-if" + "/" + b);
    Part("thing-if", b);
    Part("apps", c);
    Part(appId, d);
    Part("targets", e);
    assert '/' !in "thing:";
    Part(h, f);
    Part("commands", g);
    Part(commandId, "action-results");
    SplitOne("action-results", '/');
  }

  lemma PathJoined(appId: string, author: string, commandId: string)
    ensures ResultPath(appId, author, commandId)
         == "" + "/" + ("thing-if" + "/" + ("apps" + "/" + (appId + "/" + ("targets" + "/" + (("thing:" + author) + "/"
              + ("commands" + "/" + (commandId + "/" + "action-results")))))))
  {
    var g := commandId + "/" + "action-results";
    var f := author + ("/" + ("commands" + "/" + g));
    var d := "/" + ("targets" + "/" + ("thing:" + f));
    Nested("/thing-if/apps/", appId, "/targets/thing:", author, "/commands/", commandId, "/action-results");
    LastParts(commandId);
    MiddleParts(g);
    TargetParts(f);
    FirstParts(appId + d);
    Associates("thing:", author, "/" + ("commands" + "/" + g), appId, "targets" + "/");
  }

  lemma Nested(a: string, x: string, b: string, y: string, c: string, z: string, d: string)
    ensures a + x + b + y + c + z + d == a + (x + (b + (y + (c + (z + d)))))
  {
  }

  lemma LastParts(x: string)
    ensures x + "/action-results" == x + "/" + "action-results"
  {
    assert "/action-results" == "/" + "action-results";
  }

  lemma MiddleParts(x: string)
    ensures "/commands/" + x == "/" + ("commands" + "/" + x)
  {
    assert "/commands/" == "/" + ("commands" + "/");
  }

  lemma TargetParts(x: string)
    ensures "/targets/thing:" + x == "/" + ("targets" + "/" + ("thing:" + x))
  {
    assert "/targets/thing:" == "/" + ("targets" + "/" + "thing:");
  }

  lemma FirstParts(x: string)
    ensures "/thing-if/apps/" + x == "" + "/" + ("thing-if" + "/" + ("apps" + "/" + x))
  {
    assert "/thing-if/apps/" == "" + "/" + ("thing-if" + "/" + ("apps" + "/"));
  }

  lemma Associates(h: string, author: string, f: string, appId: string, t: string)
    requires f != "" && f[0] == '/'
    ensures appId + ("/" + (t + (h + (author + f)))) == appId + "/" + (t + ((h + author) + "/" + f[1..]))
  {
    assert f == "/" + f[1..];
    assert h + (author + f) == (h + author) + "/" + f[1..];
    assert appId + ("/" + (t + (h + (author + f)))) == appId + "/" + (t + (h + (author + f)));
  }

  lemma Part(a: string, b: string)
    requires '/' !in a
    ensures Split(a + "/" + b, '/') == [a] + Split(b, '/')
  {
    hide Split;
    SplitFirst(a, b, '/');
    assert a + "/" + b == a + (['/'] + b);
  }

  // ---------------------------------------------------------------------------------------------
  // The fields

  /** The value of the first line of that name (section 3.2 of RFC 7230). */
  function FieldOf(fields: seq<string>, name: string): Option<string> {
    if fields == [] then None
    else if Until(fields[0], ':') == name && |fields[0]| >= |name| + 2 && fields[0][|name|..|name| + 2] == ": "
    then Some(fields[0][|name| + 2..])
    else FieldOf(fields[1..], name)
  }

  lemma FieldRead(name: string, value: string, more: seq<string>, asked: string)
    requires ':' !in name
    ensures FieldOf([name + ": " + value] + more, asked) == if asked == name then Some(value) else FieldOf(more, asked)
  {
    var line := name + ": " + value;
    assert line == name + (": " + value);
    UntilRead(name, ": " + value, ':');
    assert ([line] + more)[1..] == more;
    assert line[|name|..|name| + 2] == ": " && line[|name| + 2..] == value;
  }

  // ---------------------------------------------------------------------------------------------
  // Where the results go

  /** What a receiver reads: results put to the command's own place, at that host. */
  ghost predicate Reaches(wire: string, insecure: bool, host: string, appId: string, author: string, commandId: string) {
    var r := ReadRequest(wire);
    && r.Some? && r.value.verb == "PUT" && r.value.version == "HTTP/1.1"
    && r.value.scheme == (if insecure then "http" else "https") && r.value.host == host
    && Split(r.value.path, '/') ==
       ["", "thing-if", "apps", appId, "targets", "thing:" + author, "commands", commandId, "action-results"]
  }

  /** What a receiver reads in the fields: who sends them, and how they are framed. */
  ghost predicate Signed(wire: string, host: string, appId: string, token: string) {
    var r := ReadRequest(wire);
    && r.Some? && FieldOf(r.value.fields, "HOST") == Some(host) && FieldOf(r.value.fields, "X-Kii-Appid") == Some(appId)
    && FieldOf(r.value.fields, "X-Kii-Appkey") == Some("k")
    && FieldOf(r.value.fields, "Content-Type") == Some("application/json")
    && FieldOf(r.value.fields, "Authorization") == (if token == "" then None else Some("Bearer " + token))
    && FieldOf(r.value.fields, "Transfer-Encoding") == Some("chunked")
    && FieldOf(r.value.fields, "Connection") == Some("Close")
  }

  /** Host and identifiers are words without slashes, the host fits its buffer (one that does not leaves the
      default), and no header line has a line end in it. */
  predicate Addressable(host: string, appId: string, author: string, token: string, commandId: string,
                        headers: seq<string>)
  {
    && host != "" && |host| + 1 <= HOST_SIZE
    && Word(host) && '/' !in host
    && Word(appId) && '/' !in appId && Word(author) && '/' !in author && Word(commandId) && '/' !in commandId
    && Clean(token) && forall i :: 0 <= i < |headers| ==> Clean(headers[i])
  }

  /** The request before its run. */
  function ResultRequest(insecure: bool, host: string, appId: string, author: string, commandId: string,
                         headers: seq<string>): Request
  {
    Targeted(insecure, host, "PUT", ResultPath(appId, author, commandId)).req.(headers := Texts(headers))
  }

  lemma PathIsWord(appId: string, author: string, commandId: string)
    requires Word(appId) && Word(author) && Word(commandId)
    ensures var path := ResultPath(appId, author, commandId); Word(path) && path != "" && path[0] == '/'
  {
    assert Word("/thing-if/apps/") && Word("/targets/thing:") && Word("/commands/") && Word("/action-results");
  }

  lemma CleanLines(appId: string, token: string)
    requires Clean(appId) && Clean(token)
    ensures forall i :: 0 <= i < |StartLines(appId, "application/json", token)| ==>
              Clean(StartLines(appId, "application/json", token)[i])
  {
    hide Clean;
    assert Clean("X-Kii-Appid: ") && Clean(APP_KEY_LINE) && Clean("Content-Type: ") && Clean("application/json")
           && Clean("Authorization: Bearer ") by { FixedLines(); }
    CleanParts("X-Kii-Appid: ", appId);
    CleanParts("Content-Type: ", "application/json");
    CleanParts("Authorization: Bearer ", token);
  }

  lemma FixedLines()
    ensures Clean("X-Kii-Appid: ") && Clean(APP_KEY_LINE) && Clean("Content-Type: ") && Clean("application/json")
            && Clean("Authorization: Bearer ")
  {
  }

  /** A receiver reads that request off the wire. */
  lemma ResultRead(insecure: bool, host: string, appId: string, author: string, token: string, commandId: string,
                   headers: seq<string>, rest: string)
    requires Addressable(host, appId, author, token, commandId, headers)
    requires |ResultPath(appId, author, commandId)| + 1 <= KhcClient.PATH_SIZE
    ensures var lines := headers + StartLines(appId, "application/json", token);
            var wire := HeadText(Defaults(ResultRequest(insecure, host, appId, author, commandId, lines))) + rest;
            && Reaches(wire, insecure, host, appId, author, commandId) && ReadRequest(wire).Some?
            && ReadRequest(wire).value.fields == Fields(host, Texts(lines), true) && ReadRequest(wire).value.rest == rest
  {
    hide HeadText, ReadRequest, Fields, Split, ResultPath, StartLines, Clean, Word;
    var lines := headers + StartLines(appId, "application/json", token);
    var req := Defaults(ResultRequest(insecure, host, appId, author, commandId, lines));
    PathIsWord(appId, author, commandId);
    PathParts(appId, author, commandId);
    WordsAreClean(appId, author);
    CleanLines(appId, token);
    VerbIsWord();
    HeadRead(req, rest);
  }

  lemma WordsAreClean(a: string, b: string)
    requires Word(a) && Word(b)
    ensures Clean(a) && Clean(b)
  {
  }

  lemma VerbIsWord()
    ensures Word("PUT")
  {
  }

  lemma {:induction false} GivenTexts(lines: seq<string>)
    requires forall i :: 0 <= i < |lines| ==> lines[i] != ""
    ensures Given(Texts(lines)) == lines
    decreases |lines|
  {
    if lines != [] {
      GivenTexts(lines[1..]);
      assert Texts(lines)[1..] == Texts(lines[1..]);
      assert [lines[0]] + lines[1..] == lines;
    }
  }

  lemma SomeLines(appId: string, contentType: string, token: string)
    ensures forall i :: 0 <= i < |StartLines(appId, contentType, token)| ==> StartLines(appId, contentType, token)[i] != ""
  {
  }

  /** With no lines left over from before, the fields are those of this request. */
  lemma FieldsRead(host: string, appId: string, token: string, wire: string)
    requires ReadRequest(wire).Some?
    requires ReadRequest(wire).value.fields == Fields(host, Texts(StartLines(appId, "application/json", token)), true)
    ensures Signed(wire, host, appId, token)
  {
    hide ReadRequest, FieldOf, StartLines;
    var json := "application/json";
    var lines := StartLines(appId, json, token);
    SomeLines(appId, json, token);
    GivenTexts(lines);
    var end := ["Transfer-Encoding: chunked", "Connection: Close"];
    LineFields(host, appId, json, token, end, "HOST");
    LineFields(host, appId, json, token, end, "X-Kii-Appid");
    LineFields(host, appId, json, token, end, "X-Kii-Appkey");
    LineFields(host, appId, json, token, end, "Content-Type");
    LineFields(host, appId, json, token, end, "Authorization");
    LineFields(host, appId, json, token, end, "Transfer-Encoding");
    LineFields(host, appId, json, token, end, "Connection");
    EndFields(end);
  }

  lemma LineFields(host: string, appId: string, contentType: string, token: string, end: seq<string>, asked: string)
    requires contentType != ""
    ensures FieldOf(["HOST: " + host] + StartLines(appId, contentType, token) + end, asked) ==
            if asked == "HOST" then Some(host)
            else if asked == "X-Kii-Appid" then Some(appId)
            else if asked == "X-Kii-Appkey" then Some("k")
            else if asked == "Content-Type" then Some(contentType)
            else if asked == "Authorization" && token != "" then Some("Bearer " + token)
            else FieldOf(end, asked)
  {
    hide FieldOf;
    var auth := if token == "" then [] else ["Authorization" + ": " + ("Bearer " + token)];
    var l1, l2, l3, l4 := "HOST" + ": " + host, "X-Kii-Appid" + ": " + appId, "X-Kii-Appkey" + ": " + "k",
                          "Content-Type" + ": " + contentType;
    LinesAre(host, appId, contentType, token);
    assert ["HOST: " + host] + StartLines(appId, contentType, token) + end == [l1] + ([l2] + ([l3] + ([l4] + (auth + end))));
    FieldRead("HOST", host, [l2] + ([l3] + ([l4] + (auth + end))), asked);
    FieldRead("X-Kii-Appid", appId, [l3] + ([l4] + (auth + end)), asked);
    FieldRead("X-Kii-Appkey", "k", [l4] + (auth + end), asked);
    FieldRead("Content-Type", contentType, auth + end, asked);
    if token == "" {
      assert auth + end == end;
    } else {
      FieldRead("Authorization", "Bearer " + token, end, asked);
    }
  }

  lemma LinesAre(host: string, appId: string, contentType: string, token: string)
    ensures "HOST: " + host == "HOST" + ": " + host
    ensures AppIdLine(appId) == "X-Kii-Appid" + ": " + appId && APP_KEY_LINE == "X-Kii-Appkey" + ": " + "k"
    ensures ContentTypeLine(contentType) == "Content-Type" + ": " + contentType
    ensures AuthLine(token) == "Authorization" + ": " + ("Bearer " + token)
  {
    assert "Authorization: Bearer " == "Authorization" + ": " + "Bearer ";
  }

  lemma EndFields(end: seq<string>)
    requires end == ["Transfer-Encoding: chunked", "Connection: Close"]
    ensures FieldOf(end, "Transfer-Encoding") == Some("chunked") && FieldOf(end, "Connection") == Some("Close")
    ensures FieldOf(end, "Authorization") == None
  {
    hide FieldOf;
    assert "Transfer-Encoding: chunked" == "Transfer-Encoding" + ": " + "chunked";
    assert "Connection: Close" == "Connection" + ": " + "Close";
    var last: seq<string> := ["Connection: Close"];
    var none: seq<string> := [];
    assert end == ["Transfer-Encoding: chunked"] + last && last == ["Connection: Close"] + none;
    FieldRead("Transfer-Encoding", "chunked", last, "Transfer-Encoding");
    FieldRead("Transfer-Encoding", "chunked", last, "Connection");
    FieldRead("Transfer-Encoding", "chunked", last, "Authorization");
    FieldRead("Connection", "Close", none, "Connection");
    FieldRead("Connection", "Close", none, "Authorization");
    NoField("Authorization");
  }

  lemma NoField(name: string)
    ensures FieldOf([], name) == None
  {
  }
}
