/** The memory and vCPU estimates shown for an instance type, read off the size suffix in
    its name (getMemoryForInstanceType, getCPUsForInstanceType, and the fixed helper figures
    in createNode). */
module InstanceTypes {

  import opened Strings
  import opened Layout

  datatype Amount = Unknown | Known(n: nat)

  /** Memory in GiB. The ".Nxlarge" tests run in the order 2, 4, 8, 16, 12; any other
      "xlarge" is 8; then "large" and "medium" are 4; anything else is unknown. */
  function MemoryGiB(instanceType: string): (a: Amount)
    ensures instanceType == [] ==> a == Unknown
    ensures a.Known? ==> a.n in {4, 8, 16, 32, 64, 96, 128}
    ensures Contains(instanceType, "xlarge") ==> a.Known? && a.n >= 8
  {
    if instanceType == [] then Unknown
    else if Contains(instanceType, "xlarge") then
      if Contains(instanceType, ".2xlarge") then Known(16)
      else if Contains(instanceType, ".4xlarge") then Known(32)
      else if Contains(instanceType, ".8xlarge") then Known(64)
      else if Contains(instanceType, ".16xlarge") then Known(128)
      else if Contains(instanceType, ".12xlarge") then Known(96)
      else Known(8)
    else if Contains(instanceType, "large") then Known(4)
    else if Contains(instanceType, "medium") then Known(4)
    else Unknown
  }

  /** vCPU count, by the same tests in the same order. */
  function Cpus(instanceType: string): (a: Amount)
    ensures instanceType == [] ==> a == Unknown
    ensures a.Known? ==> a.n in {2, 4, 8, 16, 32, 48, 64}
    ensures Contains(instanceType, "xlarge") ==> a.Known? && a.n >= 4
  {
    if instanceType == [] then Unknown
    else if Contains(instanceType, "xlarge") then
      if Contains(instanceType, ".2xlarge") then Known(8)
      else if Contains(instanceType, ".4xlarge") then Known(16)
      else if Contains(instanceType, ".8xlarge") then Known(32)
      else if Contains(instanceType, ".16xlarge") then Known(64)
      else if Contains(instanceType, ".12xlarge") then Known(48)
      else Known(4)
    else if Contains(instanceType, "large") then Known(2)
    else if Contains(instanceType, "medium") then Known(2)
    else Unknown
  }

  /** The two tables agree: either both are unknown, or memory is twice the vCPU count. */
  lemma MemoryIsTwiceCpus(instanceType: string)
    ensures MemoryGiB(instanceType).Unknown? <==> Cpus(instanceType).Unknown?
    ensures MemoryGiB(instanceType).Known? ==> MemoryGiB(instanceType).n == 2 * Cpus(instanceType).n
  {}

  /** A name without "large" or "medium" is unknown to both tables. */
  lemma UnknownWithoutSize(instanceType: string)
    requires !Contains(instanceType, "large") && !Contains(instanceType, "medium")
    ensures MemoryGiB(instanceType) == Unknown && Cpus(instanceType) == Unknown
  {
    if Contains(instanceType, "xlarge") {
      ContainsIffOccurs(instanceType, "xlarge");
      var i :| OccursAt(instanceType, "xlarge", i);
      assert instanceType[i + 1..i + 1 + 5] == instanceType[i..i + 6][1..];
      assert OccursAt(instanceType, "large", i + 1);
      ContainsIffOccurs(instanceType, "large");
    }
  }

  function Label(a: Amount, unit: string): (s: string)
    ensures a == Unknown <==> s == "Unknown"
  {
    match a
    case Unknown => "Unknown"
    case Known(n) =>
      var s := NatToString(n) + " " + unit;
      assert s[0] != "Unknown"[0];
      s
  }

  /** The memory and vCPU text createNode shows: fixed "4 GiB" / "2 vCPU" for the helper,
      looked up from the instance type for the other node types. */
  function NodeSpecs(t: NodeType, instanceType: string): (specs: (string, string))
    ensures t == Helper ==> specs == ("4 GiB", "2 vCPU")
    ensures t != Helper ==> specs == (Label(MemoryGiB(instanceType), "GiB"), Label(Cpus(instanceType), "vCPU"))
  {
    if t == Helper then ("4 GiB", "2 vCPU")
    else (Label(MemoryGiB(instanceType), "GiB"), Label(Cpus(instanceType), "vCPU"))
  }
}
