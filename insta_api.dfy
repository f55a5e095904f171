/**
 * `InstaAPI` (src/core/insta_api.py): commands built from a configuration
 * map whose entries `send_command` updates in place. The configuration is
 * given as a map instead of being read from a file. A `dynamic_params` of
 * `None` and an empty one behave alike (both are falsy), so both are the
 * empty map here.
 */
module InstaApi {
  import opened Wrappers
  import opened Http

  function UnknownCommandMessage(name: string): string {
    "未知的指令名稱: " + name
  }

  /** `payload["parameters"].update(dynamic_params)` on a stored entry, for non-empty parameters. */
  function MergeParameters(entry: Json, dynamicParams: map<string, Json>): (r: Result<Json, Exc>)
    ensures r.Ok? <==> entry.JObj? && "parameters" in entry.fields && entry.fields["parameters"].JObj?
    ensures r.Ok? ==>
      var old_params := entry.fields["parameters"].fields;
      && r.value.JObj? && r.value.fields.Keys == entry.fields.Keys
      && (forall k :: k in entry.fields && k != "parameters" ==> r.value.fields[k] == entry.fields[k])
      && r.value.fields["parameters"].JObj?
      && r.value.fields["parameters"].fields.Keys == old_params.Keys + dynamicParams.Keys
      && (forall k :: k in dynamicParams ==> r.value.fields["parameters"].fields[k] == dynamicParams[k])
      && (forall k :: k in old_params && k !in dynamicParams ==> r.value.fields["parameters"].fields[k] == old_params[k])
  {
    match entry
    case JObj(fields) =>
      if "parameters" !in fields then Err(Exc(KeyError, "'parameters'"))
      else
        (match fields["parameters"]
         case JObj(params) => Ok(JObj(fields["parameters" := JObj(params + dynamicParams)]))
         case _ => Err(Exc(AttributeError, "object has no attribute 'update'")))
    case _ => Err(Exc(TypeError, "object is not subscriptable"))
  }

  /** `{"error": str(e)}`. */
  function ErrorJson(e: Exc): Json {
    JObj(map["error" := JStr(e.message)])
  }

  /**
   * The `try` around post, `raise_for_status` and `json()`. Everything that
   * can go wrong there is a request exception (`CheckedJson` says so), so the
   * `except` clause turns every failure into an error object.
   */
  function CaughtReply(reply: Response, url: string): (j: Json)
    ensures CheckedJson(reply, url).Ok? ==> j == reply.body.json
    ensures CheckedJson(reply, url).Err? ==> j == JObj(map["error" := JStr(CheckedJson(reply, url).error.message)])
  {
    match CheckedJson(reply, url)
    case Ok(j) => j
    case Err(e) => ErrorJson(e)
  }

  /** The configuration after a `send_command`, and the call it made. */
  datatype CommandStep = CommandStep(config: map<string, Json>, call: Call<Result<Json, Exc>>)

  /** `send_command(command_name, dynamic_params, headers)` against `config`, answered by `reply`. */
  function SendCommandSpec(config: map<string, Json>, commandUrl: string, name: string,
                           dynamicParams: map<string, Json>, headers: Option<map<string, Json>>,
                           reply: Response): CommandStep
  {
    if name !in config then
      CommandStep(config, Call(None, Err(Exc(ValueError, UnknownCommandMessage(name)))))
    else if dynamicParams == map[] then
      CommandStep(config, Call(Some(Request(commandUrl, config[name], headers, 10)), Ok(CaughtReply(reply, commandUrl))))
    else
      match MergeParameters(config[name], dynamicParams)
      case Err(e) => CommandStep(config, Call(None, Err(e)))
      case Ok(payload) =>
        CommandStep(config[name := payload],
          Call(Some(Request(commandUrl, payload, headers, 10)), Ok(CaughtReply(reply, commandUrl))))
  }

  /**
   * An unknown command raises `ValueError` past the `except` clause, posts
   * nothing and leaves the configuration alone. With no parameters the stored
   * entry is posted as it is; with parameters it is replaced by its merge with
   * them and that merged entry is posted, unless the merge itself raises, in
   * which case that error escapes and nothing is posted or changed. A posted
   * command returns a JSON value: the reply's JSON on success, `{"error": ...}`
   * on any request exception. Entries of other commands never change.
   */
  lemma SendCommandOutcome(config: map<string, Json>, commandUrl: string, name: string,
                           dynamicParams: map<string, Json>, headers: Option<map<string, Json>>, reply: Response)
    ensures var step := SendCommandSpec(config, commandUrl, name, dynamicParams, headers, reply);
      && (name !in config ==>
            step.config == config && step.call.sent.None?
            && step.call.result == Err(Exc(ValueError, UnknownCommandMessage(name))))
      && (step.call.result.Err? ==> step.config == config && step.call.sent.None?)
      && (step.call.sent.Some? ==>
            && name in step.config
            && step.call.sent.value == Request(commandUrl, step.config[name], headers, 10)
            && step.call.result.Ok?
            && (CheckedJson(reply, commandUrl).Ok? ==> step.call.result.value == reply.body.json))
      && (name in config && dynamicParams == map[] ==>
            step.config == config && step.call.sent == Some(Request(commandUrl, config[name], headers, 10)))
      && (name in config && dynamicParams != map[] ==>
            var merged := MergeParameters(config[name], dynamicParams);
            && (merged.Ok? ==>
                  && step.config == config[name := merged.value]
                  && step.call.sent == Some(Request(commandUrl, merged.value, headers, 10)))
            && (merged.Err? ==>
                  step.config == config && step.call.sent.None? && step.call.result == Err(merged.error)))
      && (step.call.sent.Some? ==>
            && step.call.result == Ok(CaughtReply(reply, commandUrl))
            && (CheckedJson(reply, commandUrl).Err? ==>
                  step.call.result.value == JObj(map["error" := JStr(CheckedJson(reply, commandUrl).error.message)])))
      && step.config.Keys == config.Keys
      && (forall other :: other in config && other != name ==> step.config[other] == config[other])
  {
  }

  /**
   * The update persists: after a call that merged `first` into a command's
   * parameters, a later call for the same command posts parameters that
   * still hold every key of `first` that `second` does not override.
   */
  lemma {:induction false} UpdatesPersist(config: map<string, Json>, commandUrl: string, name: string,
                        first: map<string, Json>, second: map<string, Json>,
                        headers: Option<map<string, Json>>, reply1: Response, reply2: Response)
    requires name in config && first != map[]
    requires MergeParameters(config[name], first).Ok?
    ensures var step1 := SendCommandSpec(config, commandUrl, name, first, headers, reply1);
      var step2 := SendCommandSpec(step1.config, commandUrl, name, second, headers, reply2);
      && step2.call.sent.Some?
      && var params := step2.call.sent.value.body.fields["parameters"].fields;
         forall k :: k in first && k !in second ==> k in params && params[k] == first[k]
  {
    var step1 := SendCommandSpec(config, commandUrl, name, first, headers, reply1);
    var entry1 := MergeParameters(config[name], first).value;
    assert step1.config[name] == entry1;
    if second != map[] {
      var entry2 := MergeParameters(entry1, second);
      assert entry2.Ok?;
    }
  }

  class InstaAPI {
    const commandUrl: string
    const stateUrl: string
    var apiConfig: map<string, Json>

    constructor (apiConfig: map<string, Json>, commandUrl: string, stateUrl: string)
      ensures this.apiConfig == apiConfig && this.commandUrl == commandUrl && this.stateUrl == stateUrl
    {
      this.commandUrl := commandUrl;
      this.stateUrl := stateUrl;
      this.apiConfig := apiConfig;
    }

    /** `send_command`: merges the parameters into the stored entry in place, then posts it. */
    method SendCommand(name: string, dynamicParams: map<string, Json> := map[], headers: Option<map<string, Json>> := None,
                       reply: Response) returns (c: Call<Result<Json, Exc>>)
      modifies this`apiConfig
      ensures var step := SendCommandSpec(old(apiConfig), commandUrl, name, dynamicParams, headers, reply);
        apiConfig == step.config && c == step.call
    {
      if name !in apiConfig {
        return Call(None, Err(Exc(ValueError, UnknownCommandMessage(name))));
      }
      var payload := apiConfig[name];
      if dynamicParams != map[] {
        var merged := MergeParameters(payload, dynamicParams);
        if merged.Err? {
          return Call(None, Err(merged.error));
        }
        payload := merged.value;
        apiConfig := apiConfig[name := payload];
      }
      var req := Request(commandUrl, payload, headers, 10);
      c := Call(Some(req), Ok(CaughtReply(reply, commandUrl)));
    }

    /** `poll_state`: posts `{}` to the state URL; nothing is caught. */
    function PollState(headers: Option<map<string, Json>> := None, reply: Response): (c: Call<Result<Json, Exc>>)
      ensures c.sent == Some(Request(stateUrl, JObj(map[]), headers, 5))
      ensures c.result.Ok? <==> reply.Reply? && !(400 <= reply.status < 600) && reply.body.JsonBody?
      ensures c.result.Ok? ==> c.result.value == reply.body.json
      ensures c.result.Err? ==> IsRequestException(c.result.error.kind)
    {
      Call(Some(Request(stateUrl, JObj(map[]), headers, 5)), CheckedJson(reply, stateUrl))
    }
  }
}
