/** The retry loop of the user agent's run_once (agents/user_agent.py): the
    agent is invoked up to MaxRetries times with a linearly growing pause
    between attempts. The agent itself is an input: attempt k answers with
    the contents of its conversation messages or with an error. */
module UserAgent {
  import opened StrUtil

  const MaxRetries := 3
  const RetryDelaySeconds := 15

  /** The content of the last message, or "" without messages. */
  function FinalMessage(messages: seq<string>): (r: string)
    ensures |messages| == 0 ==> r == ""
    ensures |messages| > 0 ==> r == messages[|messages| - 1]
  {
    if |messages| > 0 then messages[|messages| - 1] else ""
  }

  /** The pause after failed attempt k (1-based) when another follows. */
  function Delay(attempt: nat): nat
  {
    RetryDelaySeconds * attempt
  }

  /** run_once's loop: the result of the first successful attempt, or the
      error text after MaxRetries failures. The pauses between attempts are
      15 s, then 30 s, and none follows the last attempt. */
  method RunOnce(invoke: nat -> Result<seq<string>>)
    returns (result: string, attempts: nat, sleeps: seq<nat>)
    ensures 1 <= attempts <= MaxRetries
    ensures forall k :: 1 <= k < attempts ==> invoke(k).Err?
    ensures invoke(attempts).Ok? ==> result == FinalMessage(invoke(attempts).value)
    ensures invoke(attempts).Err? ==>
      attempts == MaxRetries && result == "Error after 3 retries: " + invoke(attempts).msg
    ensures |sleeps| == attempts - 1
    ensures forall k :: 0 <= k < |sleeps| ==> sleeps[k] == Delay(k + 1)
  {
    sleeps := [];
    var lastError := "";
    var attempt := 1;
    while attempt <= MaxRetries
      invariant 1 <= attempt <= MaxRetries + 1
      invariant forall k :: 1 <= k < attempt ==> invoke(k).Err?
      invariant attempt > 1 ==> lastError == invoke(attempt - 1).msg
      invariant |sleeps| == (if attempt <= MaxRetries then attempt - 1 else MaxRetries - 1)
      invariant forall k :: 0 <= k < |sleeps| ==> sleeps[k] == Delay(k + 1)
    {
      var answer := invoke(attempt);
      if answer.Ok? {
        return FinalMessage(answer.value), attempt, sleeps;
      }
      lastError := answer.msg;
      if attempt < MaxRetries {
        sleeps := sleeps + [Delay(attempt)];
      }
      attempt := attempt + 1;
    }
    result := "Error after " + NatToString(MaxRetries) + " retries: " + lastError;
    attempts := MaxRetries;
    assert NatToString(MaxRetries) == "3";
  }
}
