/**
 * param_sanity_check: the checks made on the parsed record before any volume
 * is created. They run in a fixed order and the first one that fails decides
 * the error. The answer of ubi_get_info is a parameter (None when the call
 * fails).
 */
module Sanity {
  import opened Wrappers
  import opened Libubi
  import opened Params

  /** Whether the record (with the library's answer) fails the check that reports `e`. */
  predicate Violates(c: Config, info: Option<UbiInfo>, e: Error) {
    match e
    case SizeNotSpecified => c.bytes == 0 && !c.maxavs
    case NameNotSpecified => c.name.None?
    case InfoQueryFailed => info.None?
    case NoSuchDevice => info.Some? && c.devn >= info.value.devCount
    case NameTooLong => c.name.Some? && |c.name.value| > UBI_MAX_VOLUME_NAME
    case _ => false
  }

  /** Position of each check in the order they are made; 0 for errors raised elsewhere. */
  function CheckOrder(e: Error): nat {
    match e
    case SizeNotSpecified => 1
    case NameNotSpecified => 2
    case InfoQueryFailed => 3
    case NoSuchDevice => 4
    case NameTooLong => 5
    case _ => 0
  }

  /**
   * The record passes (None) exactly when no check fails; otherwise the error
   * reported is one whose check fails and every check made before it passed.
   */
  function ParamSanityCheck(c: Config, info: Option<UbiInfo>): (r: Option<Error>)
    ensures r.None? <==> forall e :: !Violates(c, info, e)
    ensures r.Some? ==> Violates(c, info, r.value) && CheckOrder(r.value) > 0
    ensures r.Some? ==> forall e :: CheckOrder(e) < CheckOrder(r.value) ==> !Violates(c, info, e)
  {
    if c.bytes == 0 && !c.maxavs then
      assert Violates(c, info, SizeNotSpecified);
      Some(SizeNotSpecified)
    else if c.name.None? then
      assert Violates(c, info, NameNotSpecified);
      Some(NameNotSpecified)
    else if info.None? then
      assert Violates(c, info, InfoQueryFailed);
      Some(InfoQueryFailed)
    else if c.devn >= info.value.devCount then
      assert Violates(c, info, NoSuchDevice);
      Some(NoSuchDevice)
    else if |c.name.value| > UBI_MAX_VOLUME_NAME then
      assert Violates(c, info, NameTooLong);
      Some(NameTooLong)
    else None
  }

  /**
   * A missing size or name is reported whatever ubi_get_info would have
   * answered: those checks come before the call.
   */
  lemma ChecksBeforeQuery(c: Config, info1: Option<UbiInfo>, info2: Option<UbiInfo>)
    requires (c.bytes == 0 && !c.maxavs) || c.name.None?
    ensures ParamSanityCheck(c, info1) == ParamSanityCheck(c, info2)
    ensures ParamSanityCheck(c, info1).value in {SizeNotSpecified, NameNotSpecified}
  {
  }

  /** The default device number -1 names no device, so it never fails the device check. */
  lemma DefaultDevnAlwaysExists(c: Config, info: Option<UbiInfo>)
    requires c.devn == -1
    ensures !Violates(c, info, NoSuchDevice)
  {
  }

  /** A present name passes the name checks exactly when it is at most UBI_MAX_VOLUME_NAME long, even when empty. */
  lemma NameBoundary(c: Config, info: Option<UbiInfo>)
    requires c.name.Some?
    ensures !Violates(c, info, NameNotSpecified)
    ensures !Violates(c, info, NameTooLong) <==> |c.name.value| <= UBI_MAX_VOLUME_NAME
  {
  }
}
