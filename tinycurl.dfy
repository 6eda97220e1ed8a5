/** The command-line scanner of tinycurl.py: `parse_arguments` turns
    `argv` into the settings of one request. */
module TinyCurl {
  import opened Wrappers
  import opened Py

  /** The tuple `parse_arguments` returns. */
  datatype Request = Request(
    url: string,
    verb: string,                   // the HTTP method
    data: Option<string>,
    headers: map<string, string>,
    auth: Option<seq<string>>,      // the tuple of the `-u` value's ":"-separated parts
    verbose: bool,
    includeHeader: bool,
    outputFile: Option<string>)

  /** The settings before any option is read. */
  function Defaults(url: string): (r: Request)
    ensures r.url == url && r.verb == "GET" && r.headers == map[]
    ensures r.data.None? && r.auth.None? && r.outputFile.None?
    ensures !r.verbose && !r.includeHeader
  {
    Request(url, "GET", None, map[], None, false, false, None)
  }

  /** The options that read the token after them. */
  predicate IsValueFlag(t: string)
  {
    t == "-o" || t == "-u" || t == "-X" || t == "-d" || t == "-H"
  }

  /** The token at `i` raises: a value option with nothing after it
      (IndexError), or a `-H` value that does not split on ": " into
      exactly a key and a value (ValueError on unpacking). */
  predicate Fails(args: seq<string>, i: nat)
    requires i < |args|
  {
    IsValueFlag(args[i])
    && (i + 1 == |args| || (args[i] == "-H" && |Split(args[i + 1], ": ")| != 2))
  }

  /** The exception a failing token raises. */
  function ErrorAt(args: seq<string>, i: nat): (e: Error)
    requires i < |args|
    ensures e == IndexError || e == ValueError
  {
    if i + 1 == |args| then IndexError else ValueError
  }

  /** One pass of the loop body: the settings after reading the token at `i`. */
  function Step(args: seq<string>, i: nat, r: Request): (s: Result<Request, Error>)
    requires i < |args|
    ensures s.Err? <==> Fails(args, i)
    ensures s.Err? ==> s.error == ErrorAt(args, i)
  {
    var t := args[i];
    if IsValueFlag(t) && i + 1 == |args| then Err(IndexError)
    else if t == "-o" then Ok(r.(outputFile := Some(args[i + 1])))
    else if t == "-u" then Ok(r.(auth := Some(Split(args[i + 1], ":"))))
    else if t == "-v" then Ok(r.(verbose := true))
    else if t == "-i" then Ok(r.(includeHeader := true))
    else if t == "-X" then Ok(r.(verb := args[i + 1]))
    else if t == "-d" then Ok(r.(data := Some(args[i + 1])))
    else if t == "-H" then
      var parts := Split(args[i + 1], ": ");
      if |parts| != 2 then Err(ValueError) else Ok(r.(headers := r.headers[parts[0] := parts[1]]))
    else Ok(r)
  }

  /** Each token changes at most the one setting its option names: a value
      option stores the token after it, `-v` and `-i` switch their setting
      on, `-H` adds or replaces one header, and any other token changes
      nothing. */
  lemma StepChangesOneSetting(args: seq<string>, i: nat, r: Request)
    requires i < |args|
    requires Step(args, i, r).Ok?
    ensures IsValueFlag(args[i]) ==> i + 1 < |args|
    ensures var s := Step(args, i, r).value;
            s.url == r.url
            && s.outputFile == (if args[i] == "-o" then Some(args[i + 1]) else r.outputFile)
            && s.auth == (if args[i] == "-u" then Some(Split(args[i + 1], ":")) else r.auth)
            && s.verbose == (r.verbose || args[i] == "-v")
            && s.includeHeader == (r.includeHeader || args[i] == "-i")
            && s.verb == (if args[i] == "-X" then args[i + 1] else r.verb)
            && s.data == (if args[i] == "-d" then Some(args[i + 1]) else r.data)
            && (args[i] != "-H" ==> s.headers == r.headers)
            && (args[i] == "-H" ==>
                  var parts := Split(args[i + 1], ": ");
                  |parts| == 2 && s.headers == r.headers[parts[0] := parts[1]])
  {
  }

  /** The settings after the loop has read the tokens from index 2 up to
      `n`, or the exception that stopped it. */
  function Scan(args: seq<string>, n: nat): Result<Request, Error>
    requires 2 <= n <= |args|
    decreases n
  {
    if n == 2 then Ok(Defaults(args[1]))
    else
      match Scan(args, n - 1)
      case Err(e) => Err(e)
      case Ok(r) => Step(args, n - 1, r)
  }

  /** `parse_arguments(args)`: `args[0]` is the program name and `args[1]`
      the URL; reading the URL from a shorter list raises IndexError. */
  function Parse(args: seq<string>): Result<Request, Error>
  {
    if |args| < 2 then Err(IndexError) else Scan(args, |args|)
  }

  /** Once a token has raised, the rest of the scan keeps that exception. */
  lemma {:induction false} ScanStops(args: seq<string>, n: nat, m: nat)
    requires 2 <= n <= m <= |args|
    requires Scan(args, n).Err?
    ensures Scan(args, m) == Scan(args, n)
    decreases m
  {
    if m > n {
      ScanStops(args, n, m - 1);
    }
  }

  /** The scanner: one pass over the tokens after the URL, updating the
      settings in local variables and the headers dictionary as it goes. */
  method ParseArguments(args: seq<string>) returns (r: Result<Request, Error>)
    ensures r == Parse(args)
  {
    if |args| < 2 {
      return Err(IndexError);
    }
    var url := args[1];
    var verb := "GET";
    var data: Option<string> := None;
    var headers: map<string, string> := map[];
    var auth: Option<seq<string>> := None;
    var verbose := false;
    var includeHeader := false;
    var outputFile: Option<string> := None;
    var i := 2;
    while i < |args|
      invariant 2 <= i <= |args|
      invariant Scan(args, i) == Ok(Request(url, verb, data, headers, auth, verbose, includeHeader, outputFile))
    {
      var t := args[i];
      if IsValueFlag(t) && i + 1 == |args| {
        ScanStops(args, i + 1, |args|);
        return Err(IndexError);
      }
      if t == "-o" {
        outputFile := Some(args[i + 1]);
      } else if t == "-u" {
        auth := Some(Split(args[i + 1], ":"));
      } else if t == "-v" {
        verbose := true;
      } else if t == "-i" {
        includeHeader := true;
      } else if t == "-X" {
        verb := args[i + 1];
      } else if t == "-d" {
        data := Some(args[i + 1]);
      } else if t == "-H" {
        var parts := Split(args[i + 1], ": ");
        if |parts| != 2 {
          ScanStops(args, i + 1, |args|);
          return Err(ValueError);
        }
        headers := headers[parts[0] := parts[1]];
      }
      i := i + 1;
    }
    return Ok(Request(url, verb, data, headers, auth, verbose, includeHeader, outputFile));
  }

  // ---------------------------------------------------------------------------
  // What a scan leaves behind

  /** The index of the last occurrence of `flag` among the tokens from
      index 2 up to `n`. */
  function LastFlag(args: seq<string>, flag: string, n: nat): (j: Option<nat>)
    requires n <= |args|
    ensures j.Some? ==> 2 <= j.value < n && args[j.value] == flag
                        && forall k | j.value < k < n :: args[k] != flag
    ensures j.None? ==> forall k | 2 <= k < n :: args[k] != flag
    decreases n
  {
    if n <= 2 then None
    else if args[n - 1] == flag then Some(n - 1)
    else LastFlag(args, flag, n - 1)
  }

  /** A scan fails exactly when one of the tokens it reads fails, and then
      with the exception of the first such token. */
  lemma {:induction false} ScanFails(args: seq<string>, n: nat)
    requires 2 <= n <= |args|
    ensures Scan(args, n).Err? <==> exists i | 2 <= i < n :: Fails(args, i)
    ensures Scan(args, n).Err? ==>
              exists i | 2 <= i < n :: Fails(args, i) && Scan(args, n).error == ErrorAt(args, i)
                                      && forall k | 2 <= k < i :: !Fails(args, k)
    decreases n
  {
    if n > 2 {
      ScanFails(args, n - 1);
    }
  }

  /** In a scan that went through, every value option is followed by a token. */
  lemma {:induction false} ScanHasValues(args: seq<string>, n: nat)
    requires 2 <= n <= |args|
    requires Scan(args, n).Ok?
    ensures forall j | 2 <= j < n && IsValueFlag(args[j]) :: j + 1 < |args|
  {
    ScanFails(args, n);
  }

  /** `-o`: the last occurrence names the output file; without one there is
      none. The URL is always `args[1]`. */
  lemma {:induction false} ScanOutputFile(args: seq<string>, n: nat)
    requires 2 <= n <= |args|
    requires Scan(args, n).Ok?
    ensures Scan(args, n).value.url == args[1]
    ensures LastFlag(args, "-o", n).None? ==> Scan(args, n).value.outputFile.None?
    ensures LastFlag(args, "-o", n).Some? ==>
              var j := LastFlag(args, "-o", n).value;
              j + 1 < |args| && Scan(args, n).value.outputFile == Some(args[j + 1])
    decreases n
  {
    if n > 2 {
      ScanOutputFile(args, n - 1);
      StepChangesOneSetting(args, n - 1, Scan(args, n - 1).value);
    }
  }

  /** `-X`: the last occurrence is the method; without one it is "GET". */
  lemma {:induction false} ScanVerb(args: seq<string>, n: nat)
    requires 2 <= n <= |args|
    requires Scan(args, n).Ok?
    ensures LastFlag(args, "-X", n).None? ==> Scan(args, n).value.verb == "GET"
    ensures LastFlag(args, "-X", n).Some? ==>
              var j := LastFlag(args, "-X", n).value;
              j + 1 < |args| && Scan(args, n).value.verb == args[j + 1]
    decreases n
  {
    if n > 2 {
      ScanVerb(args, n - 1);
      StepChangesOneSetting(args, n - 1, Scan(args, n - 1).value);
    }
  }

  /** `-d`: the last occurrence is the body; without one there is none. */
  lemma {:induction false} ScanData(args: seq<string>, n: nat)
    requires 2 <= n <= |args|
    requires Scan(args, n).Ok?
    ensures LastFlag(args, "-d", n).None? ==> Scan(args, n).value.data.None?
    ensures LastFlag(args, "-d", n).Some? ==>
              var j := LastFlag(args, "-d", n).value;
              j + 1 < |args| && Scan(args, n).value.data == Some(args[j + 1])
    decreases n
  {
    if n > 2 {
      ScanData(args, n - 1);
      StepChangesOneSetting(args, n - 1, Scan(args, n - 1).value);
    }
  }

  /** `-u`: the last occurrence decides, its value cut at every ":". */
  lemma {:induction false} ScanAuth(args: seq<string>, n: nat)
    requires 2 <= n <= |args|
    requires Scan(args, n).Ok?
    ensures LastFlag(args, "-u", n).None? ==> Scan(args, n).value.auth.None?
    ensures LastFlag(args, "-u", n).Some? ==>
              var j := LastFlag(args, "-u", n).value;
              j + 1 < |args| && Scan(args, n).value.auth == Some(Split(args[j + 1], ":"))
    decreases n
  {
    if n > 2 {
      ScanAuth(args, n - 1);
      StepChangesOneSetting(args, n - 1, Scan(args, n - 1).value);
    }
  }

  /** `-v` and `-i` only ever switch their setting on: it is on exactly when
      the option occurs. */
  lemma {:induction false} ScanSwitches(args: seq<string>, n: nat)
    requires 2 <= n <= |args|
    requires Scan(args, n).Ok?
    ensures Scan(args, n).value.verbose <==> exists k | 2 <= k < n :: args[k] == "-v"
    ensures Scan(args, n).value.includeHeader <==> exists k | 2 <= k < n :: args[k] == "-i"
    decreases n
  {
    if n > 2 {
      ScanSwitches(args, n - 1);
      StepChangesOneSetting(args, n - 1, Scan(args, n - 1).value);
    }
  }

  /** The token at `j` is a `-H` whose value splits into `key` and a value. */
  predicate SetsHeader(args: seq<string>, j: nat, key: string)
    requires j < |args|
  {
    args[j] == "-H" && j + 1 < |args|
    && var parts := Split(args[j + 1], ": "); |parts| == 2 && parts[0] == key
  }

  /** The index of the last `-H` before `n` that sets `key`. */
  function LastHeader(args: seq<string>, key: string, n: nat): (j: Option<nat>)
    requires n <= |args|
    ensures j.Some? ==> 2 <= j.value < n && SetsHeader(args, j.value, key)
                        && forall k | j.value < k < n :: !SetsHeader(args, k, key)
    ensures j.None? ==> forall k | 2 <= k < n :: !SetsHeader(args, k, key)
    decreases n
  {
    if n <= 2 then None
    else if SetsHeader(args, n - 1, key) then Some(n - 1)
    else LastHeader(args, key, n - 1)
  }

  /** A header is set exactly when some `-H` names it, and holds the value
      of the last `-H` that does. */
  lemma {:induction false} ScanHeaders(args: seq<string>, n: nat, key: string)
    requires 2 <= n <= |args|
    requires Scan(args, n).Ok?
    ensures key in Scan(args, n).value.headers <==> LastHeader(args, key, n).Some?
    ensures key in Scan(args, n).value.headers ==>
              Scan(args, n).value.headers[key] == Split(args[LastHeader(args, key, n).value + 1], ": ")[1]
    decreases n
  {
    if n > 2 {
      ScanHeaders(args, n - 1, key);
      StepChangesOneSetting(args, n - 1, Scan(args, n - 1).value);
    }
  }

  /** A header read back from the settings is the key and value its `-H`
      option gave, with ": " between them. */
  lemma HeaderRoundTrip(args: seq<string>, key: string)
    requires Parse(args).Ok?
    requires key in Parse(args).value.headers
    ensures exists j | 2 <= j < |args| - 1 ::
              args[j] == "-H" && args[j + 1] == key + ": " + Parse(args).value.headers[key]
  {
    var n := |args|;
    ScanHeaders(args, n, key);
    var j := LastHeader(args, key, n).value;
    var parts := Split(args[j + 1], ": ");
    JoinSplit(args[j + 1], ": ");
    assert parts[1..] == [parts[1]];
    assert Join(parts, ": ") == parts[0] + ": " + parts[1];
  }

  /** The `-u` parts joined with ":" give back the option's value. */
  lemma AuthRoundTrip(args: seq<string>)
    requires Parse(args).Ok?
    requires Parse(args).value.auth.Some?
    ensures exists j | 2 <= j < |args| - 1 ::
              args[j] == "-u" && Join(Parse(args).value.auth.value, ":") == args[j + 1]
  {
    var n := |args|;
    ScanAuth(args, n);
    var j := LastFlag(args, "-u", n).value;
    JoinSplit(args[j + 1], ":");
  }

  /** The token after a value option is not skipped: `-X -v` sets the method
      to "-v" and also switches verbose on. */
  lemma ValueIsAlsoReadAsOption(url: string)
    ensures Parse(["tinycurl.py", url, "-X", "-v"])
            == Ok(Defaults(url).(verb := "-v", verbose := true))
  {
    var args := ["tinycurl.py", url, "-X", "-v"];
    assert Scan(args, 3) == Ok(Defaults(url).(verb := "-v"));
  }

  /** A value option in the last position raises IndexError, whatever came
      before it, unless an earlier token has already raised. */
  lemma TrailingValueFlag(args: seq<string>)
    requires |args| >= 3 && IsValueFlag(args[|args| - 1])
    requires forall k | 2 <= k < |args| - 1 :: !Fails(args, k)
    ensures Parse(args) == Err(IndexError)
  {
    var n := |args|;
    ScanFails(args, n - 1);
  }
}
