/** Package expire: the expiration policies (Expirator) of the tagged store,
    and the process-wide default lifetime of tag policies. */
module Expire {
  import opened GoModel

  /** 6 * time.Hour, in nanoseconds: the initial defaultExpiration. */
  const SixHours: Duration := 6 * 60 * 60 * 1_000_000_000

  /** The three implementations of the Expirator interface. Each holds an
      absolute deadline t fixed when it is built; Tag and Tags also carry the
      tags the store indexes the entry under. */
  datatype Expirator =
    | Dur(t: Time)                        // the unexported `duration`
    | Tag(tag: GoString, t: Time)
    | Tags(tags: seq<GoString>, t: Time)
  {
    /** Expire(now) is now.Before(t) in every variant: it holds while the
        deadline has NOT been reached, despite its name. */
    predicate Expire(now: Time) {
      match this
      case Dur(deadline) => now < deadline
      case Tag(_, deadline) => now < deadline
      case Tags(_, deadline) => now < deadline
    }

    /** Tag.GetValue. */
    function TagValue(): GoString
      requires Tag?
    {
      tag
    }

    /** Tags.GetValue. */
    function TagsValue(): seq<GoString>
      requires Tags?
    {
      tags
    }

    /** The tags the tagged store's Set registers for this policy, in order. */
    function TagList(): seq<GoString> {
      match this
      case Dur(_) => []
      case Tag(x, _) => [x]
      case Tags(xs, _) => xs
    }
  }

  /** All three variants answer Expire with the same strict comparison
      against their deadline. */
  lemma ExpireIffBefore(e: Expirator, now: Time)
    ensures e.Expire(now) <==> now < e.t
  {
  }

  /** Expire is monotone: if it holds at some instant, it holds at every
      earlier one; once false, it stays false. */
  lemma ExpireMonotone(e: Expirator, later: Time, earlier: Time)
    requires e.Expire(later) && earlier <= later
    ensures e.Expire(earlier)
  {
  }

  /** In(d): a policy with no tags whose Expire holds exactly before now + d. */
  function In(now: Time, d: Duration): (r: Expirator)
    ensures r.Dur? && r.TagList() == []
    ensures forall x :: r.Expire(x) <==> x < now + d
  {
    Dur(now + d)
  }

  /** WithTag(tags...) at instant now with default lifetime `lifetime`:
      None stands for the panic on an empty argument list. */
  function WithTagAt(now: Time, lifetime: Duration, tags: seq<GoString>): (r: Option<Expirator>)
    ensures r.None? <==> tags == []
    ensures |tags| == 1 ==> r.Some? && r.value.Tag? && r.value.TagValue() == tags[0]
    ensures |tags| >= 2 ==> r.Some? && r.value.Tags? && r.value.TagsValue() == tags
    ensures r.Some? ==> r.value.t == now + lifetime && r.value.TagList() == tags
  {
    if |tags| == 0 then None
    else if |tags| == 1 then Some(Tag(tags[0], now + lifetime))
    else Some(Tags(tags, now + lifetime))
  }

  /** The package variable defaultExpiration. */
  class Defaults {
    var defaultExpiration: Duration

    constructor ()
      ensures defaultExpiration == SixHours
    {
      defaultExpiration := SixHours;
    }

    method ChangeDefaultExpiration(d: Duration)
      modifies this
      ensures defaultExpiration == d
    {
      defaultExpiration := d;
    }

    /** WithTag reads the current default lifetime when it builds the
        policy; a later ChangeDefaultExpiration does not alter policies
        already built, since they are values. */
    method WithTag(now: Time, tags: seq<GoString>) returns (r: Option<Expirator>)
      ensures r == WithTagAt(now, defaultExpiration, tags)
      ensures r.Some? ==> r.value.t == now + defaultExpiration
    {
      r := WithTagAt(now, defaultExpiration, tags);
    }
  }
}
