/** Where the hearing-schedule docket's cut-off line goes: the index of the
    last row scheduled for this docket, and how a negative index is shown. */
module DocketLine {
  import Query

  /** The one case type the count looks at (the legacy "CAVC remand" type)
      and every other. */
  datatype CaseType = CavcRemand | OtherCaseType(name: string)

  /** The attributes of an appeal the count reads. */
  datatype Appeal = Appeal(caseType: CaseType, aod: bool)

  predicate IsAodOrCavcRemand(a: Appeal) {
    a.caseType == CavcRemand || a.aod
  }

  /** `_.filter(allAppeals, ...).length`: the CAVC-remand or AOD appeals. */
  function AodAndCavcCount(allAppeals: seq<Appeal>): (n: nat)
    ensures n <= |allAppeals|
    ensures n == 0 <==> forall a :: a in allAppeals ==> !IsAodOrCavcRemand(a)
  {
    |Query.Filter(allAppeals, IsAodOrCavcRemand)|
  }

  /** `getIndexOfDocketLine` */
  function GetIndexOfDocketLine(allAppeals: seq<Appeal>, appealsInDocketRange: seq<Appeal>): (r: int)
    ensures r >= -1
    ensures r <= |appealsInDocketRange| + |allAppeals| - 1
    ensures r == -1 <==> appealsInDocketRange == [] && forall a :: a in allAppeals ==> !IsAodOrCavcRemand(a)
  {
    |appealsInDocketRange| + AodAndCavcCount(allAppeals) - 1
  }

  function CountCavcRemand(s: seq<Appeal>): nat {
    if s == [] then 0 else (if s[0].caseType == CavcRemand then 1 else 0) + CountCavcRemand(s[1..])
  }

  function CountAod(s: seq<Appeal>): nat {
    if s == [] then 0 else (if s[0].aod then 1 else 0) + CountAod(s[1..])
  }

  function CountAodCavcRemand(s: seq<Appeal>): nat {
    if s == [] then 0 else (if s[0].aod && s[0].caseType == CavcRemand then 1 else 0) + CountAodCavcRemand(s[1..])
  }

  /** An appeal that is both a CAVC remand and AOD is counted once: the count
      is the CAVC remands plus the AOD appeals less those that are both. */
  lemma {:induction false} AodAndCavcCountedOnce(s: seq<Appeal>)
    ensures AodAndCavcCount(s) == CountCavcRemand(s) + CountAod(s) - CountAodCavcRemand(s)
  {
    if s != [] {
      AodAndCavcCountedOnce(s[1..]);
      assert s == [s[0]] + s[1..];
      assert Query.Filter(s, IsAodOrCavcRemand) ==
        (if IsAodOrCavcRemand(s[0]) then [s[0]] else []) + Query.Filter(s[1..], IsAodOrCavcRemand);
    }
  }

  /** The head of `docketCutoffLineStyle`: a negative index means the docket
      is empty, and the row index used is then 0. */
  function CutoffRow(index: int): (r: (bool, nat))
    ensures r.0 <==> index < 0
    ensures r.1 == if index < 0 then 0 else index
  {
    var isEmpty := index < 0;
    (isEmpty, if isEmpty then 0 else index)
  }

  /** The cut-off line is drawn as "empty" exactly when nothing is scheduled
      on the docket and no appeal is AOD or a CAVC remand; otherwise it sits
      under the row of the last appeal counted. */
  lemma CutoffLineForDocket(allAppeals: seq<Appeal>, appealsInDocketRange: seq<Appeal>)
    ensures var (isEmpty, row) := CutoffRow(GetIndexOfDocketLine(allAppeals, appealsInDocketRange));
      (isEmpty <==> appealsInDocketRange == [] && forall a :: a in allAppeals ==> !IsAodOrCavcRemand(a))
      && (!isEmpty ==> row + 1 == |appealsInDocketRange| + AodAndCavcCount(allAppeals))
      && (isEmpty ==> row == 0)
  {
  }
}
