/**
 * utils.py: the mention builders, and `run_script` as an abstract service.
 */
module Utils {
  import opened Text

  /**
   * `run_script(url)` downloads a script and runs it; here it is a service that yields a
   * fixed, arbitrary `output` and records every URL it was asked to run.
   */
  class ScriptRunner {
    const output: string
    var runs: seq<string>

    constructor (output: string)
      ensures this.output == output && runs == []
    {
      this.output := output;
      runs := [];
    }

    method RunScript(url: string) returns (out: string)
      modifies this
      ensures runs == old(runs) + [url] && out == output
    {
      runs := runs + [url];
      out := output;
    }
  }

  /** `embed_role_mention(role_id)`: `<@&` + the id in decimal + `>`. */
  function RoleMention(roleId: nat): string {
    "<@&" + NatToString(roleId) + ">"
  }

  /** `embed_nickname_mention(user_id)`: `<@!` + the id in decimal + `>`. */
  function NicknameMention(userId: nat): string {
    "<@!" + NatToString(userId) + ">"
  }

  /** The id between the three-character opening and the closing `>` of a mention. */
  function MentionedId(mention: string): nat
    requires |mention| >= 4
    requires forall k :: 3 <= k < |mention| - 1 ==> IsDigit(mention[k])
  {
    ParseDecimal(mention[3..|mention| - 1])
  }

  /** A role mention reads back as the id it was built from. */
  lemma RoleMentionRoundTrip(roleId: nat)
    ensures var m := RoleMention(roleId);
      |m| >= 5 && m[..3] == "<@&" && m[|m| - 1] == '>' &&
      (forall k :: 3 <= k < |m| - 1 ==> IsDigit(m[k])) && MentionedId(m) == roleId
  {
    var m, digits := RoleMention(roleId), NatToString(roleId);
    assert m[3..|m| - 1] == digits;
    ParseNatToString(roleId);
  }

  /** A nickname mention reads back as the id it was built from. */
  lemma NicknameMentionRoundTrip(userId: nat)
    ensures var m := NicknameMention(userId);
      |m| >= 5 && m[..3] == "<@!" && m[|m| - 1] == '>' &&
      (forall k :: 3 <= k < |m| - 1 ==> IsDigit(m[k])) && MentionedId(m) == userId
  {
    var m, digits := NicknameMention(userId), NatToString(userId);
    assert m[3..|m| - 1] == digits;
    ParseNatToString(userId);
  }

  lemma RoleMentionInjective(a: nat, b: nat)
    ensures RoleMention(a) == RoleMention(b) <==> a == b
  {
    RoleMentionRoundTrip(a);
    RoleMentionRoundTrip(b);
  }

  lemma NicknameMentionInjective(a: nat, b: nat)
    ensures NicknameMention(a) == NicknameMention(b) <==> a == b
  {
    NicknameMentionRoundTrip(a);
    NicknameMentionRoundTrip(b);
  }

  /** A role mention is never a nickname mention: their third characters differ. */
  lemma MentionsDisjoint(a: nat, b: nat)
    ensures RoleMention(a) != NicknameMention(b)
  {
    assert RoleMention(a)[2] == '&' && NicknameMention(b)[2] == '!';
  }
}
