/**
 * The image generation scripts (`generate_image.py` and `generate_image.js`,
 * which behave alike): the `.png` suffix rule, one call of the image
 * service with its single wait-and-retry on a rate limit, the command-line
 * arguments of the Node script, and the batch run over a manifest of
 * named prompts. The service's answers are a parameter: `responses` are the
 * replies to the requests in the order they are made, and running out of
 * them stands for a request that fails. Waiting, decoding and writing the
 * image are outside this model.
 */
module ImageGeneration {
  import opened Wrappers
  import opened Text

  predicate HasPngSuffix(filename: string) {
    EndsWith(ToLower(filename), ".png")
  }

  lemma LowerPng(a: string)
    ensures HasPngSuffix(a + ".png")
  {
    ToLowerAppend(a, ".png");
    assert ToLower(".png") == ".png";
  }

  /** `ensure_png_extension(filename)` / `ensurePngExtension(filename)` */
  function EnsurePng(filename: string): (r: string)
    ensures HasPngSuffix(r)
    ensures StartsWith(r, filename) && |r| <= |filename| + 4
    ensures r != filename <==> !HasPngSuffix(filename)
  {
    LowerPng(filename);
    if !HasPngSuffix(filename) then filename + ".png" else filename
  }

  lemma EnsurePngIdempotent(filename: string)
    ensures EnsurePng(EnsurePng(filename)) == EnsurePng(filename)
  {
    LowerPng(filename);
  }

  datatype DataItem = DataItem(b64Json: Option<string>)

  /** The `retry_after` field of a JSON reply: missing (both scripts wait 60
      seconds), a whole number of seconds, or a value Python's `int()`
      refuses (`null`, text that is not a whole number, a list). */
  datatype RetryAfter = DefaultWait | Seconds(n: int) | NotANumber

  /** A reply body: a JSON object with or without a `data` list, or text that
      is not JSON. */
  datatype Body = Json(data: Option<seq<DataItem>>, retryAfter: RetryAfter) | NotJson

  datatype Response = Response(status: int, body: Body)

  datatype Outcome =
    | Saved(path: string)
    | RequestFailed
    | RateLimitUnreadable
    | ApiError(status: int)
    | Unparsable
    | EmptyData
    | MissingImage

  /** A reply that carries an image: a non-empty `data` whose first item has
      a non-empty `b64_json`. */
  predicate CarriesImage(body: Body) {
    body.Json? && body.data.Some? && |body.data.value| > 0
    && body.data.value[0].b64Json.Some? && body.data.value[0].b64Json.value != ""
  }

  /** What a reply with status 200 leads to. */
  function Accept(body: Body, outputFilename: string): (r: Outcome)
    ensures r.Saved? <==> CarriesImage(body)
    ensures r.Saved? ==> r.path == EnsurePng(outputFilename)
    ensures !r.Saved? ==> r in {Unparsable, EmptyData, MissingImage}
  {
    if body.NotJson? then Unparsable
    else if body.data.None? || |body.data.value| == 0 then EmptyData
    else if body.data.value[0].b64Json.None? || body.data.value[0].b64Json.value == "" then MissingImage
    else Saved(EnsurePng(outputFilename))
  }

  datatype Step = Retry | Finish(outcome: Outcome)

  /** One reply, with `retry` the flag that still allows a rate-limit wait. */
  function Attempt(resp: Response, outputFilename: string, retry: bool): Step {
    if resp.status == 429 && retry then
      if resp.body.Json? && resp.body.retryAfter != NotANumber then Retry else Finish(RateLimitUnreadable)
    else if resp.status != 200 then Finish(ApiError(resp.status))
    else Finish(Accept(resp.body, outputFilename))
  }

  /** `generate_image(..., retry_on_429=retry)`: the outcome and the number
      of replies used. */
  function Generate(responses: seq<Response>, outputFilename: string, retry: bool): (r: (Outcome, nat))
    ensures r.1 <= |responses| && (responses != [] ==> 1 <= r.1)
    decreases |responses|
  {
    if responses == [] then (RequestFailed, 0)
    else
      var s := Attempt(responses[0], outputFilename, retry);
      if s.Retry? then
        var t := Generate(responses[1..], outputFilename, false);
        (t.0, t.1 + 1)
      else (s.outcome, 1)
  }

  /** The Node script's loop, which keeps `retryOn429` and counts the wait in
      `retried429`. It reads a reply's body once with `resp.json()`; when
      that fails on an error reply, the `resp.text()` that follows reads the
      consumed body again, which throws a `TypeError` that the outer `catch`
      reports as a failed request. `parseInt` never throws, so any JSON
      `retry_after` leads to the retry. */
  function GenerateNode(responses: seq<Response>, outputFilename: string, retryOn429: bool, retried429: bool): (r: (Outcome, nat))
    ensures r.1 <= |responses| && (responses != [] ==> 1 <= r.1)
    ensures r.0.Saved? ==> r.0.path == EnsurePng(outputFilename)
    decreases |responses|
  {
    if responses == [] then (RequestFailed, 0)
    else
      var resp := responses[0];
      if resp.status == 429 && retryOn429 && !retried429 then
        if resp.body.Json? then
          var t := GenerateNode(responses[1..], outputFilename, retryOn429, true);
          (t.0, t.1 + 1)
        else (RequestFailed, 1)
      else if resp.status != 200 then (if resp.body.Json? then ApiError(resp.status) else RequestFailed, 1)
      else (Accept(resp.body, outputFilename), 1)
  }

  /** A reply on which the two scripts agree: a success, or an error reply
      with a JSON body whose `retry_after`, on a rate limit, is readable. */
  predicate Agreed(resp: Response) {
    resp.status == 200 || (resp.body.Json? && (resp.status == 429 ==> resp.body.retryAfter != NotANumber))
  }

  /** On such replies both scripts make the same requests and end the same
      way. */
  lemma {:induction false} NodeMatchesPython(responses: seq<Response>, outputFilename: string, retryOn429: bool, retried429: bool)
    requires forall i :: 0 <= i < |responses| ==> Agreed(responses[i])
    ensures GenerateNode(responses, outputFilename, retryOn429, retried429)
         == Generate(responses, outputFilename, retryOn429 && !retried429)
    decreases |responses|
  {
    if responses != [] {
      assert Agreed(responses[0]);
      assert forall i :: 0 <= i < |responses[1..]| ==> Agreed(responses[1..][i]) by {
        forall i | 0 <= i < |responses[1..]|
          ensures Agreed(responses[1..][i])
        {
          assert responses[1..][i] == responses[i + 1];
        }
      }
      NodeMatchesPython(responses[1..], outputFilename, retryOn429, true);
    }
  }

  /** An error reply whose body is not JSON: Python reads its text and ends
      with the API error, while the Node script's second read of the
      consumed body ends it as a failed request. */
  lemma NodeRereadsConsumedBody(resp: Response, rest: seq<Response>, outputFilename: string, retryOn429: bool, retried429: bool)
    requires resp.status != 200 && resp.body.NotJson?
    ensures GenerateNode([resp] + rest, outputFilename, retryOn429, retried429) == (RequestFailed, 1)
    ensures Generate([resp] + rest, outputFilename, retryOn429 && !retried429)
         == (if resp.status == 429 && retryOn429 && !retried429 then RateLimitUnreadable else ApiError(resp.status), 1)
  {
    assert ([resp] + rest)[0] == resp;
  }

  /** A rate limit whose `retry_after` is not a whole number: Python's `int()`
      throws and the run ends after that one request, while the Node
      script's `parseInt` gives NaN, skips the countdown and asks again. */
  lemma NotANumberRetryAfter(first: Response, rest: seq<Response>, outputFilename: string)
    requires first.status == 429 && first.body.Json? && first.body.retryAfter == NotANumber
    ensures Generate([first] + rest, outputFilename, true) == (RateLimitUnreadable, 1)
    ensures GenerateNode([first] + rest, outputFilename, true, false)
         == (GenerateNode(rest, outputFilename, true, true).0, GenerateNode(rest, outputFilename, true, true).1 + 1)
    ensures rest != [] ==> GenerateNode([first] + rest, outputFilename, true, false).1 >= 2
  {
    assert ([first] + rest)[0] == first && ([first] + rest)[1..] == rest;
  }

  /** At most one wait: two replies at most, one when retrying is off. */
  lemma AtMostOneRetry(responses: seq<Response>, outputFilename: string, retry: bool)
    ensures Generate(responses, outputFilename, retry).1 <= (if retry then 2 else 1)
  {
    if responses != [] && Attempt(responses[0], outputFilename, retry).Retry? {
      assert Generate(responses[1..], outputFilename, false).1 <= 1;
    }
  }

  /** A second rate limit is not waited for: it ends the run as an error. */
  lemma SecondRateLimitFatal(first: Response, second: Response, rest: seq<Response>, outputFilename: string)
    requires first.status == 429 && first.body.Json? && first.body.retryAfter != NotANumber && second.status == 429
    ensures Generate([first, second] + rest, outputFilename, true) == (ApiError(429), 2)
  {
    assert ([first, second] + rest)[1..] == [second] + rest;
  }

  /** An image is saved only from a 200 reply that carries one, under the
      name with the `.png` suffix. */
  lemma SavedOnlyFromImage(responses: seq<Response>, outputFilename: string, retry: bool)
    requires Generate(responses, outputFilename, retry).0.Saved?
    ensures var (o, n) := Generate(responses, outputFilename, retry);
      1 <= n && responses[n - 1].status == 200 && CarriesImage(responses[n - 1].body)
      && o.path == EnsurePng(outputFilename)
  {
    if Attempt(responses[0], outputFilename, retry).Retry? {
      var tail := responses[1..];
      assert Generate(tail, outputFilename, false).0.Saved?;
      assert tail != [] && !Attempt(tail[0], outputFilename, false).Retry?;
    }
  }

  /** After `used` replies, with `retry` the flag as it then stands, the
      rest of the run ends as the whole run does. */
  predicate Pending(responses: seq<Response>, outputFilename: string, retryOn429: bool, used: nat, retry: bool)
    requires used <= |responses|
  {
    var rest := Generate(responses[used..], outputFilename, retry);
    Generate(responses, outputFilename, retryOn429) == (rest.0, rest.1 + used)
  }

  /** The `while True` loop of `generate_image`, with the flag `retry_on_429`
      cleared by the one wait. */
  method GenerateImage(responses: seq<Response>, outputFilename: string, retryOn429: bool)
    returns (outcome: Outcome, requests: nat)
    ensures (outcome, requests) == Generate(responses, outputFilename, retryOn429)
  {
    var retry := retryOn429;
    requests := 0;
    outcome := RequestFailed;
    var done := false;
    while !done
      invariant requests <= |responses|
      invariant !done ==> Pending(responses, outputFilename, retryOn429, requests, retry)
      invariant done ==> (outcome, requests) == Generate(responses, outputFilename, retryOn429)
      decreases |responses| - requests, !done
    {
      if requests == |responses| {
        assert responses[requests..] == [];
        outcome := RequestFailed;
        done := true;
      } else {
        var resp := responses[requests];
        assert responses[requests..][1..] == responses[requests + 1..];
        requests := requests + 1;
        if resp.status == 429 && retry {
          if resp.body.Json? && resp.body.retryAfter != NotANumber {
            retry := false;
          } else {
            outcome := RateLimitUnreadable;
            done := true;
          }
        } else if resp.status != 200 {
          outcome := ApiError(resp.status);
          done := true;
        } else {
          outcome := Accept(resp.body, outputFilename);
          done := true;
        }
      }
    }
  }

  /** A value as JavaScript and Python test it: present and not empty. */
  predicate Given(v: Option<string>) {
    v.Some? && v.value != ""
  }

  /** The options `parseArgs` builds; a flag at the end of the arguments
      reads past them and leaves its option undefined. */
  datatype Args = Args(prompt: Option<string>, output: Option<string>, promptsFile: Option<string>,
                       apiKey: Option<string>, model: Option<string>)

  const DefaultArgs := Args(None, None, None, None, Some("nano-banana"))

  function ArgAt(args: seq<string>, i: nat): Option<string> {
    if i < |args| then Some(args[i]) else None
  }

  predicate IsFlag(arg: string) {
    arg == "--prompts" || arg == "--api-key" || arg == "--model"
  }

  /** The arguments from `i` on, read into `acc`. */
  function ParseFrom(args: seq<string>, i: nat, acc: Args): Args
    decreases |args| - i
  {
    if i >= |args| then acc
    else if args[i] == "--prompts" then ParseFrom(args, i + 2, acc.(promptsFile := ArgAt(args, i + 1)))
    else if args[i] == "--api-key" then ParseFrom(args, i + 2, acc.(apiKey := ArgAt(args, i + 1)))
    else if args[i] == "--model" then ParseFrom(args, i + 2, acc.(model := ArgAt(args, i + 1)))
    else if !Given(acc.prompt) then ParseFrom(args, i + 1, acc.(prompt := Some(args[i])))
    else if !Given(acc.output) then ParseFrom(args, i + 1, acc.(output := Some(args[i])))
    else ParseFrom(args, i + 1, acc)
  }

  /** `parseArgs()` of the Node script: each flag takes the argument after
      it, and the loop's own step then skips that argument. */
  method ParseArgs(args: seq<string>) returns (result: Args)
    ensures result == ParseFrom(args, 0, DefaultArgs)
  {
    result := DefaultArgs;
    var i := 0;
    while i < |args|
      invariant ParseFrom(args, i, result) == ParseFrom(args, 0, DefaultArgs)
      decreases |args| - i
    {
      var arg := args[i];
      if arg == "--prompts" {
        i := i + 1;
        result := result.(promptsFile := ArgAt(args, i));
      } else if arg == "--api-key" {
        i := i + 1;
        result := result.(apiKey := ArgAt(args, i));
      } else if arg == "--model" {
        i := i + 1;
        result := result.(model := ArgAt(args, i));
      } else if !Given(result.prompt) {
        result := result.(prompt := Some(arg));
      } else if !Given(result.output) {
        result := result.(output := Some(arg));
      }
      i := i + 1;
    }
  }

  /** Once prompt and output are set, plain arguments change nothing. */
  lemma {:induction false} LaterPositionalsIgnored(args: seq<string>, i: nat, acc: Args)
    requires Given(acc.prompt) && Given(acc.output)
    requires forall j :: i <= j < |args| ==> !IsFlag(args[j])
    ensures ParseFrom(args, i, acc) == acc
    decreases |args| - i
  {
    if i < |args| {
      LaterPositionalsIgnored(args, i + 1, acc);
    }
  }

  /** The first plain argument is the prompt and the second the output;
      any further ones are dropped. */
  lemma PositionalsInOrder(p: string, o: string, rest: seq<string>)
    requires p != "" && o != "" && !IsFlag(p) && !IsFlag(o)
    requires forall j :: 0 <= j < |rest| ==> !IsFlag(rest[j])
    ensures ParseFrom([p, o] + rest, 0, DefaultArgs) == DefaultArgs.(prompt := Some(p), output := Some(o))
  {
    var args := [p, o] + rest;
    assert args[0] == p && args[1] == o;
    var acc1 := DefaultArgs.(prompt := Some(p));
    var acc := acc1.(output := Some(o));
    assert ParseFrom(args, 0, DefaultArgs) == ParseFrom(args, 1, acc1);
    assert ParseFrom(args, 1, acc1) == ParseFrom(args, 2, acc);
    assert forall j :: 2 <= j < |args| ==> args[j] == rest[j - 2];
    LaterPositionalsIgnored(args, 2, acc);
  }

  /** A flag takes the next argument even when it is itself a flag, and a
      flag at the end leaves its option undefined. */
  lemma FlagTakesNextArgument()
    ensures ParseFrom(["--api-key", "--model"], 0, DefaultArgs).apiKey == Some("--model")
    ensures ParseFrom(["--api-key", "--model"], 0, DefaultArgs).model == Some("nano-banana")
    ensures ParseFrom(["--model"], 0, DefaultArgs).model == None
  {
    var a := ["--api-key", "--model"];
    assert a[0] == "--api-key" && a[1] == "--model";
    var b := ["--model"];
    assert b[0] == "--model";
  }

  datatype Mode = Batch(file: string) | Single(prompt: string, output: string) | Usage

  /** `main`: a prompts file selects the batch run; otherwise both the
      prompt and the output are needed. */
  function ModeOf(promptsFile: Option<string>, prompt: Option<string>, output: Option<string>): (m: Mode)
    ensures m.Batch? <==> Given(promptsFile)
    ensures m.Single? <==> !Given(promptsFile) && Given(prompt) && Given(output)
    ensures m.Single? ==> m.prompt != "" && m.output != ""
  {
    if Given(promptsFile) then Batch(promptsFile.value)
    else if !Given(prompt) || !Given(output) then Usage
    else Single(prompt.value, output.value)
  }

  /** A manifest entry: an object whose `name` and `prompt` are read, or any
      other JSON value (Python's `dict` test, the Node script's non-null
      non-array object test). */
  datatype Item = Entry(name: Option<string>, prompt: Option<string>) | NotAnObject

  datatype Manifest = ItemList(items: seq<Item>) | NotAList

  /** What the batch run does, in order. */
  datatype Event = Generated(prompt: string, path: string) | Wait(seconds: nat) | Exit(reason: ExitReason)

  /** Why the batch run stops early: a manifest that is not a list, a bad
      entry, or an image request of an entry that did not end with a saved
      image (`generate_image` exits the script on every such path). */
  datatype ExitReason = NotAnArray | InvalidItem(index: nat) | MissingNameOrPrompt(index: nat)
                      | GenerationFailed(index: nat, outcome: Outcome)

  predicate ValidItem(item: Item) {
    item.Entry? && Given(item.name) && Given(item.prompt)
  }

  /** `images/<name>.png` */
  function ItemPath(name: string): (p: string)
    ensures HasPngSuffix(p) && EnsurePng(p) == p
  {
    LowerPng("images/" + name);
    "images/" + name + ".png"
  }

  function GeneratedFor(item: Item): Event
    requires ValidItem(item)
  {
    Generated(item.prompt.value, ItemPath(item.name.value))
  }

  function ItemError(item: Item, idx: nat): ExitReason
    requires !ValidItem(item)
  {
    if item.NotAnObject? then InvalidItem(idx) else MissingNameOrPrompt(idx)
  }

  /** The replies the service gives to the requests of entry `j`; an entry
      past the list gets none, so its request fails. The replies of a whole
      run, cut at the number of requests each entry makes, are such a
      list. */
  function RepliesAt(replies: seq<seq<Response>>, j: nat): seq<Response> {
    if j < |replies| then replies[j] else []
  }

  /** How `generate_image(prompt, images/<name>.png, retry_on_429=True)`
      ends for each entry; a bad entry is never sent. */
  function EntryOutcomes(items: seq<Item>, replies: seq<seq<Response>>): (r: seq<Outcome>)
    ensures |r| == |items|
  {
    seq(|items|, j requires 0 <= j < |items| =>
      if ValidItem(items[j]) then Generate(RepliesAt(replies, j), ItemPath(items[j].name.value), true).0
      else RequestFailed)
  }

  /** The outcome of entry `j`'s image request; one past the list fails. */
  function OutcomeAt(outcomes: seq<Outcome>, j: nat): Outcome {
    if j < |outcomes| then outcomes[j] else RequestFailed
  }

  /** Entry `j` is good and its image was saved. */
  predicate Done(items: seq<Item>, outcomes: seq<Outcome>, j: nat)
    requires j < |items|
  {
    ValidItem(items[j]) && OutcomeAt(outcomes, j).Saved?
  }

  /** The image of a done entry is saved under `images/<name>.png`, the path
      the batch run prints. */
  lemma SavedUnderItemPath(items: seq<Item>, replies: seq<seq<Response>>, j: nat)
    requires j < |items| && Done(items, EntryOutcomes(items, replies), j)
    ensures EntryOutcomes(items, replies)[j] == Saved(ItemPath(items[j].name.value))
  {
    SavedOnlyFromImage(RepliesAt(replies, j), ItemPath(items[j].name.value), true);
  }

  /** Why the run stops at an entry that is not done. */
  function StopReason(items: seq<Item>, outcomes: seq<Outcome>, j: nat): ExitReason
    requires j < |items| && !Done(items, outcomes, j)
  {
    if !ValidItem(items[j]) then ItemError(items[j], j) else GenerationFailed(j, OutcomeAt(outcomes, j))
  }

  /** The events of the entries from `idx` on: each entry is checked and
      generated when its turn comes, the first one that is bad or whose
      image is not saved ends the run, and the 25-second wait follows every
      saved entry but the last. */
  function ItemsEvents(items: seq<Item>, outcomes: seq<Outcome>, idx: nat): seq<Event>
    requires idx <= |items|
    decreases |items| - idx
  {
    if idx == |items| then []
    else if !Done(items, outcomes, idx) then [Exit(StopReason(items, outcomes, idx))]
    else [GeneratedFor(items[idx])] + (if idx < |items| - 1 then [Wait(25)] else []) + ItemsEvents(items, outcomes, idx + 1)
  }

  function BatchEvents(manifest: Manifest, replies: seq<seq<Response>>): seq<Event> {
    if manifest.NotAList? then [Exit(NotAnArray)]
    else ItemsEvents(manifest.items, EntryOutcomes(manifest.items, replies), 0)
  }

  /** The events of entry `idx` alone. */
  function EntryEvents(items: seq<Item>, outcomes: seq<Outcome>, idx: nat): seq<Event>
    requires idx < |items|
  {
    if !Done(items, outcomes, idx) then [Exit(StopReason(items, outcomes, idx))]
    else [GeneratedFor(items[idx])] + (if idx < |items| - 1 then [Wait(25)] else [])
  }

  /** The events from entry `idx` on are its own, then, when it is done,
      those of the entries after it. */
  lemma EntryStep(items: seq<Item>, outcomes: seq<Outcome>, idx: nat)
    requires idx < |items|
    ensures ItemsEvents(items, outcomes, idx)
         == EntryEvents(items, outcomes, idx) + (if Done(items, outcomes, idx) then ItemsEvents(items, outcomes, idx + 1) else [])
  {
  }

  /** One turn of the batch loop: check the entry, then call
      `generate_image` for it; `stop` when the script exits there. */
  method HandleEntry(items: seq<Item>, replies: seq<seq<Response>>, idx: nat) returns (step: seq<Event>, stop: bool)
    requires idx < |items|
    ensures stop == !Done(items, EntryOutcomes(items, replies), idx)
    ensures step == EntryEvents(items, EntryOutcomes(items, replies), idx)
  {
    var item := items[idx];
    if !ValidItem(item) {
      return [Exit(ItemError(item, idx))], true;
    }
    var outcome, requests := GenerateImage(RepliesAt(replies, idx), ItemPath(item.name.value), true);
    assert outcome == EntryOutcomes(items, replies)[idx];
    if !outcome.Saved? {
      return [Exit(GenerationFailed(idx, outcome))], true;
    }
    step := [GeneratedFor(item)];
    if idx < |items| - 1 {
      step := step + [Wait(25)];
    }
    stop := false;
  }

  /** The batch loop of `main`. */
  method RunBatch(manifest: Manifest, replies: seq<seq<Response>>) returns (events: seq<Event>)
    ensures events == BatchEvents(manifest, replies)
  {
    if manifest.NotAList? {
      return [Exit(NotAnArray)];
    }
    var items := manifest.items;
    ghost var outcomes := EntryOutcomes(items, replies);
    events := [];
    var idx := 0;
    while idx < |items|
      invariant idx <= |items|
      invariant events + ItemsEvents(items, outcomes, idx) == ItemsEvents(items, outcomes, 0)
      decreases |items| - idx
    {
      var step, stop := HandleEntry(items, replies, idx);
      EntryStep(items, outcomes, idx);
      events := events + step;
      if stop {
        return;
      }
      idx := idx + 1;
    }
    assert ItemsEvents(items, outcomes, idx) == [];
  }

  /** A done entry that is not the last: its image, the wait, then the
      rest. */
  lemma ValidStep(items: seq<Item>, outcomes: seq<Outcome>, idx: nat)
    requires idx < |items| - 1 && Done(items, outcomes, idx)
    ensures ItemsEvents(items, outcomes, idx)
         == [GeneratedFor(items[idx]), Wait(25)] + ItemsEvents(items, outcomes, idx + 1)
  {
  }

  /** Entry `j` is generated at position `2 * (j - idx)` of the events of
      the entries from `idx` on. */
  predicate GeneratedAt(e: seq<Event>, items: seq<Item>, idx: nat, j: nat) {
    idx <= j < |items| && 2 * (j - idx) < |e| && ValidItem(items[j]) && e[2 * (j - idx)] == GeneratedFor(items[j])
  }

  /** The wait after entry `j` is at position `2 * (j - idx) + 1`. */
  predicate WaitAfter(e: seq<Event>, idx: nat, j: nat) {
    idx <= j && 2 * (j - idx) + 1 < |e| && e[2 * (j - idx) + 1] == Wait(25)
  }

  /** Entries `idx` to `n - 1` all done: each is generated at its place,
      and followed by the wait unless it is the last entry. */
  lemma {:induction false} DonePrefix(items: seq<Item>, outcomes: seq<Outcome>, idx: nat, n: nat)
    requires idx <= n <= |items|
    requires forall j :: idx <= j < n ==> Done(items, outcomes, j)
    ensures forall j :: idx <= j < n ==> GeneratedAt(ItemsEvents(items, outcomes, idx), items, idx, j)
    ensures forall j :: idx <= j < n && j < |items| - 1 ==> WaitAfter(ItemsEvents(items, outcomes, idx), idx, j)
    decreases n - idx
  {
    if idx < n {
      DonePrefix(items, outcomes, idx + 1, n);
      var e := ItemsEvents(items, outcomes, idx);
      var rest := ItemsEvents(items, outcomes, idx + 1);
      EntryStep(items, outcomes, idx);
      assert GeneratedAt(e, items, idx, idx);
      forall j | idx + 1 <= j < n
        ensures GeneratedAt(e, items, idx, j) && (j < |items| - 1 ==> WaitAfter(e, idx, j))
      {
        assert GeneratedAt(rest, items, idx + 1, j);
        EntryShift(items, outcomes, idx, j);
      }
    }
  }

  /** When every entry is good and every image request saves: the entries
      generated in order under `images/<name>.png`, a wait between two
      entries and none after the last. */
  lemma {:induction false} AllValidEvents(items: seq<Item>, outcomes: seq<Outcome>, idx: nat)
    requires idx <= |items|
    requires forall j :: idx <= j < |items| ==> Done(items, outcomes, j)
    ensures |ItemsEvents(items, outcomes, idx)| == if idx == |items| then 0 else 2 * (|items| - idx) - 1
    ensures forall j :: idx <= j < |items| ==> GeneratedAt(ItemsEvents(items, outcomes, idx), items, idx, j)
    ensures forall j :: idx <= j < |items| - 1 ==> WaitAfter(ItemsEvents(items, outcomes, idx), idx, j)
    decreases |items| - idx
  {
    if idx < |items| {
      AllValidEvents(items, outcomes, idx + 1);
      EntryStep(items, outcomes, idx);
    }
    DonePrefix(items, outcomes, idx, |items|);
  }

  /** The events up to the first entry that is not done: two per entry
      before it, then the exit at that entry. */
  lemma {:induction false} StopEvents(items: seq<Item>, outcomes: seq<Outcome>, idx: nat, bad: nat)
    requires idx <= bad < |items| && !Done(items, outcomes, bad)
    requires forall j :: idx <= j < bad ==> Done(items, outcomes, j)
    ensures |ItemsEvents(items, outcomes, idx)| == 2 * (bad - idx) + 1
    ensures ItemsEvents(items, outcomes, idx)[2 * (bad - idx)] == Exit(StopReason(items, outcomes, bad))
    decreases |items| - idx
  {
    if idx < bad {
      assert Done(items, outcomes, idx);
      StopEvents(items, outcomes, idx + 1, bad);
      var k := 2 * (bad - idx - 1);
      EventsShift(items, outcomes, idx, k);
      assert ItemsEvents(items, outcomes, idx + 1)[k] == Exit(StopReason(items, outcomes, bad));
      assert k + 2 == 2 * (bad - idx);
    } else {
      EntryStep(items, outcomes, idx);
      assert ItemsEvents(items, outcomes, idx) == [Exit(StopReason(items, outcomes, idx))];
    }
  }

  /** Entries are handled one at a time: the run stops at the first entry
      that is not an object, lacks a name or prompt, or whose image request
      fails, with every entry before it generated and followed by its
      wait. */
  lemma StopsAtFirstFailure(items: seq<Item>, outcomes: seq<Outcome>, idx: nat, bad: nat)
    requires idx <= bad < |items| && !Done(items, outcomes, bad)
    requires forall j :: idx <= j < bad ==> Done(items, outcomes, j)
    ensures |ItemsEvents(items, outcomes, idx)| == 2 * (bad - idx) + 1
    ensures ItemsEvents(items, outcomes, idx)[2 * (bad - idx)] == Exit(StopReason(items, outcomes, bad))
    ensures forall j :: idx <= j < bad ==> GeneratedAt(ItemsEvents(items, outcomes, idx), items, idx, j)
    ensures forall j :: idx <= j < bad ==> WaitAfter(ItemsEvents(items, outcomes, idx), idx, j)
  {
    StopEvents(items, outcomes, idx, bad);
    DonePrefix(items, outcomes, idx, bad);
  }

  /** A good entry whose image request fails ends the run there, right
      after the entries before it, with the outcome of that request. */
  lemma StopsAtFirstFailedGeneration(items: seq<Item>, outcomes: seq<Outcome>, bad: nat)
    requires bad < |items| && ValidItem(items[bad]) && !OutcomeAt(outcomes, bad).Saved?
    requires forall j :: 0 <= j < bad ==> Done(items, outcomes, j)
    ensures |ItemsEvents(items, outcomes, 0)| == 2 * bad + 1
    ensures ItemsEvents(items, outcomes, 0)[2 * bad] == Exit(GenerationFailed(bad, OutcomeAt(outcomes, bad)))
  {
    StopsAtFirstFailure(items, outcomes, 0, bad);
  }

  /** What the events of the rest say about an entry `j`, the events from
      a done entry before it say two places later. */
  lemma EntryShift(items: seq<Item>, outcomes: seq<Outcome>, idx: nat, j: nat)
    requires idx < |items| - 1 && Done(items, outcomes, idx) && idx < j
    ensures GeneratedAt(ItemsEvents(items, outcomes, idx + 1), items, idx + 1, j)
        ==> GeneratedAt(ItemsEvents(items, outcomes, idx), items, idx, j)
    ensures WaitAfter(ItemsEvents(items, outcomes, idx + 1), idx + 1, j)
        ==> WaitAfter(ItemsEvents(items, outcomes, idx), idx, j)
  {
    ValidStep(items, outcomes, idx);
  }

  /** Behind a done entry that is not the last, the events of the rest
      follow two places later. */
  lemma EventsShift(items: seq<Item>, outcomes: seq<Outcome>, idx: nat, k: nat)
    requires idx < |items| - 1 && Done(items, outcomes, idx) && k < |ItemsEvents(items, outcomes, idx + 1)|
    ensures |ItemsEvents(items, outcomes, idx)| == |ItemsEvents(items, outcomes, idx + 1)| + 2
    ensures ItemsEvents(items, outcomes, idx)[k + 2] == ItemsEvents(items, outcomes, idx + 1)[k]
  {
    ValidStep(items, outcomes, idx);
  }
}
