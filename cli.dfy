/**
  * How every script reads its command line (`process.argv.slice(2)`): a flag
  * is located with `args.findIndex(arg => arg === flag)`, and its value is the
  * next argument, used only when the flag was found and that argument is
  * truthy (present and not the empty string). A switch is on when
  * `args.includes(switch)`.
  */
module Cli {
  import opened Text

  /** `args.findIndex(arg => names contains arg)`: the first index holding one of `names`, or -1. */
  function FindIndex(args: seq<string>, names: set<string>): (r: int)
    ensures -1 <= r < |args|
    ensures r == -1 <==> forall k :: 0 <= k < |args| ==> args[k] !in names
    ensures r >= 0 ==> args[r] in names && forall k :: 0 <= k < r ==> args[k] !in names
  {
    if |args| == 0 then -1
    else if args[0] in names then 0
    else
      var r := FindIndex(args[1..], names);
      if r == -1 then -1 else r + 1
  }

  /**
    * `flag !== -1 && args[flag + 1]`: the value given after the first
    * occurrence of the flag, when there is a non-empty one.
    */
  function FlagValue(args: seq<string>, names: set<string>): Option<string> {
    var i := FindIndex(args, names);
    if i != -1 && i + 1 < |args| && args[i + 1] != "" then Some(args[i + 1]) else None
  }

  /**
    * When the flag has a value, `parseInt` reads a number from it (the
    * scripts do not guard against NaN; this model does not cover it).
    */
  predicate ValueIsNumeric(args: seq<string>, names: set<string>) {
    FlagValue(args, names).Some? ==> ParseInt(FlagValue(args, names).value).Some?
  }

  /**
    * Only the first occurrence of a flag is read: its value decides, and a
    * later occurrence is ignored even when the first one has no usable value.
    */
  lemma FlagValueIsFirstOccurrence(args: seq<string>, names: set<string>, i: nat)
    requires i < |args| && args[i] in names
    requires forall k :: 0 <= k < i ==> args[k] !in names
    ensures FlagValue(args, names) == if i + 1 < |args| && args[i + 1] != "" then Some(args[i + 1]) else None
  {
    assert args[i] in names;
  }

  /** Anything appended after a flag and its value does not change what is read for it. */
  lemma {:induction false} FlagValueExtend(args: seq<string>, more: seq<string>, names: set<string>)
    requires FlagValue(args, names).Some?
    ensures FlagValue(args + more, names) == FlagValue(args, names)
  {
    var i := FindIndex(args, names);
    FlagValueIsFirstOccurrence(args + more, names, i);
  }
}
