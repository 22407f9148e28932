/** The argument check and the filter-mode selection of main.go. */
module Cli {
  import opened Wrappers
  import opened CapabilityFilter

  /** The two ways `validateArgs` rejects a command line. */
  datatype ArgError = BothFilters | EmptyCommand {
    /** The text of the error `validateArgs` returns; each error has its own. */
    function Message(): (r: string)
      ensures this == BothFilters <==> r == "both enable/disable flags given"
      ensures this == EmptyCommand <==> r == "empty command"
    {
      match this
      case BothFilters => "both enable/disable flags given"
      case EmptyCommand => "empty command"
    }
  }

  /** `validateArgs`: the enable and disable lists may not both be given,
      and a command to run must be. The list conflict is checked first. */
  function ValidateArgs(enable: seq<string>, disable: seq<string>, args: seq<string>): (r: Option<ArgError>)
    ensures r.None? <==> (|enable| == 0 || |disable| == 0) && |args| > 0
    ensures r == Some(BothFilters) <==> |enable| > 0 && |disable| > 0
    ensures r == Some(EmptyCommand) <==> (|enable| == 0 || |disable| == 0) && |args| == 0
  {
    if |enable| > 0 && |disable| > 0 then Some(BothFilters)
    else if |args| == 0 then Some(EmptyCommand)
    else None
  }

  /** The filter mode and provider list `run` hands to the reader. */
  function SelectMode(enable: seq<string>, disable: seq<string>): (r: (FilterMode, seq<string>))
    ensures |enable| > 0 ==> r == (EnableFilter, enable)
    ensures |enable| == 0 && |disable| > 0 ==> r == (DisableFilter, disable)
    ensures |enable| == 0 && |disable| == 0 ==> r == (NoFilter, [])
  {
    if |enable| > 0 then (EnableFilter, enable)
    else if |disable| > 0 then (DisableFilter, disable)
    else (NoFilter, [])
  }

  /** On a command line that passed validation the selection is exactly
      the one list given: the provider list is the two lists joined, no
      filtering happens iff neither list was given, and the enable mode is
      never chosen with an empty list (so it never disables everything). */
  lemma {:induction false} ValidatedSelection(enable: seq<string>, disable: seq<string>, args: seq<string>)
    requires ValidateArgs(enable, disable, args).None?
    ensures SelectMode(enable, disable).1 == enable + disable
    ensures SelectMode(enable, disable).0 == NoFilter <==> enable + disable == []
    ensures SelectMode(enable, disable).0 != NoFilter ==> |SelectMode(enable, disable).1| > 0
  {
    if |enable| > 0 {
      assert disable == [];
      assert enable + disable == enable;
    } else {
      assert enable + disable == disable;
    }
  }
}
