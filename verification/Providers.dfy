/** Any of the three designs behind the one provider interface. */
module Providers {
  import opened Prelude
  import opened TxtValues
  import R = AtomicRecords
  import W = WholeSetRewrite
  import C = CompareAndSwap
  import P = RecordPerValue

  datatype Provider =
    | Rewriting(rewriting: W.State)
    | Swapping(swapping: C.State)
    | PerValue(perValue: P.State)

  ghost predicate Init(p: Provider) {
    match p
    case Rewriting(s) => W.Init(s)
    case Swapping(s) => C.Init(s)
    case PerValue(s) => P.Init(s)
  }

  ghost predicate Step(p: Provider, e: R.Event, p': Provider) {
    match p
    case Rewriting(s) => p'.Rewriting? && W.Step(s, e, p'.rewriting)
    case Swapping(s) => p'.Swapping? && C.Step(s, e, p'.swapping)
    case PerValue(s) => p'.PerValue? && P.Step(s, e, p'.perValue)
  }

  ghost predicate Inv(p: Provider) {
    match p
    case Rewriting(s) => W.Inv(s)
    case Swapping(s) => C.Inv(s)
    case PerValue(s) => P.Inv(s)
  }

  ghost function Abs(p: Provider): R.Records {
    match p
    case Rewriting(s) => W.Abs(s)
    case Swapping(s) => C.Abs(s)
    case PerValue(s) => P.Abs(s)
  }

  /** The values stored under a name, as the design stores them. */
  ghost function Stored(p: Provider, key: string): set<string> {
    match p
    case Rewriting(s) => Values(W.Entries(Lookup(s.server, key)))
    case Swapping(s) => Values(C.Entries(Lookup(s.server, key)))
    case PerValue(s) => P.ValuesAt(s.zone, key)
  }

  lemma StoredIsAbs(p: Provider, key: string)
    ensures R.At(Abs(p).sets, key) == Stored(p, key)
  {
    match p
    case Rewriting(s) => W.AbsAt(s, key);
    case Swapping(s) => C.AbsAt(s, key);
    case PerValue(s) => P.AbsAt(s, key);
  }

  lemma InitInv(p: Provider)
    requires Init(p)
    ensures Inv(p) && Abs(p).calls == map[]
  {
  }

  /** All three designs refine the atomic contract, but for cleanups that
      overlook a record on a later page of a listing. */
  lemma StepRefines(p: Provider, e: R.Event, p': Provider)
    requires Inv(p) && Step(p, e, p')
    ensures Inv(p') && R.WeakStep(Abs(p), e, Abs(p'))
    ensures !p.PerValue? ==> R.Step(Abs(p), e, Abs(p'))
  {
    match p
    case Rewriting(s) => W.StepRefines(s, e, p'.rewriting);
    case Swapping(s) => C.StepRefines(s, e, p'.swapping);
    case PerValue(s) => P.StepRefines(s, e, p'.perValue);
  }

  /** A listing finds every record of the value on its first page. */
  ghost predicate Findable(p: Provider, key: string, v: string) {
    p.PerValue? ==> P.OnFirstPage(p.perValue.zone, key, v)
  }
}
