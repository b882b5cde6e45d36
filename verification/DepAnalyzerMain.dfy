/** The loop of dep_analyzer_main.c: every unit of a file goes to the analyser, then the report is made. */
module DepAnalyzerMain {
  import opened Bits
  import opened BitSyntax
  import opened AnnexB
  import FileScan
  import opened Pocs
  import opened Sorting
  import opened NalUnits
  import opened NalUnitIO
  import opened DepAnalyzer
  import opened DependenceAnalyses

  function Before(ps: seq<Picture>, o: Option<seq<Picture>>): Option<seq<Picture>> {
    if o.None? then None else Some(ps + o.value)
  }

  /** What the units that a scan returned show, one after the other; None when one leads outside the model. */
  function Watch<T>(look: (T, seq<byte>) -> Option<(T, seq<Picture>)>, st: T,
                    us: seq<(nat, seq<byte>)>): Option<seq<Picture>>
  {
    if us == [] then Some([]) else
    match look(st, us[0].1)
    case None => None
    case Some((st', ps)) => Before(ps, Watch(look, st', us[1..]))
  }

  /** One unit: the state of the stream and the modulus change, and a picture may start. */
  function Look(haveSei: bool): ((State, nat), seq<byte>) -> Option<((State, nat), seq<Picture>)> {
    (st: (State, nat), nal: seq<byte>) =>
      match ReadNal(haveSei, st.0.(unitType := 0, slice := None), nal)
      case None => None
      case Some((st', rc)) =>
        var max := NewMax(st', rc, st.1);
        Some(((st', max), if StartsPicture(st', rc) then [PictureOf(st', max)] else []))
  }

  method ProcessUnit(da: DependenceAnalysis, buf: array<byte>, start: nat, size: nat) returns (known: bool)
    requires da.Valid() && start + size <= buf.Length
    modifies da, da.dpb, da.h, da.h.spsTable, da.h.ppsTable
    ensures da.Valid()
    ensures
      match Look(da.h.haveSei)((old(da.h.State()), old(da.maxPocLsb)), buf[start..start + size])
      case None => !known
      case Some((st, ps)) => known && (da.h.State(), da.maxPocLsb) == st && da.history == old(da.history) + ps
  {
    hide ReadNal, NewMax, StartsPicture, PictureOf;
    known := da.ProcessNal(buf, start, size);
  }

  lemma WatchStep<T>(look: (T, seq<byte>) -> Option<(T, seq<Picture>)>, st: T, w: seq<byte>, off: nat)
    ensures Next(w).None? ==> Watch(look, st, Units(w, off)) == Some([])
    ensures Next(w).Some? ==>
              var (start, end) := Next(w).value;
              end <= |w| &&
              Watch(look, st, Units(w, off)) ==
              match look(st, w[start..end])
              case None => None
              case Some((st', ps)) => Before(ps, Watch(look, st', Units(w[end..], off + end)))
  {
    hide Next;
    UnitsStep(w, off);
    if Next(w).Some? {
      var (start, end) := Next(w).value;
      var us := Units(w, off);
      assert us[0] == (off + start, w[start..end]) && us[1..] == Units(w[end..], off + end);
    }
  }

  lemma BeforeBoth(ps: seq<Picture>, qs: seq<Picture>, o: Option<seq<Picture>>)
    ensures Before(ps, Before(qs, o)) == Before(ps + qs, o)
    ensures Before([], o) == o
  {
    if o.Some? {
      assert ps + (qs + o.value) == ps + qs + o.value;
      assert [] + o.value == o.value;
    }
  }

  /** The loop: every unit that the scan of the file returns goes to the analyser, until one leads outside the model. */
  method Feed(da: DependenceAnalysis, buf: array<byte>, fileSize: nat) returns (known: bool)
    requires da.Valid() && da.history == [] && fileSize + SLACK <= buf.Length
    modifies da, da.dpb, da.h, da.h.spsTable, da.h.ppsTable
    ensures da.Valid()
    ensures
      var seen := Watch(Look(da.h.haveSei), old((da.h.State(), da.maxPocLsb)), Units(buf[..fileSize], 0));
      (known <==> seen.Some?) && (known ==> seen == Some(da.history))
  {
    hide Find, Next, Units, Watch, Look, DependenceAnalysis.Consistent, TablesOk;
    ghost var file := buf[..fileSize];
    ghost var look := Look(da.h.haveSei);
    ghost var st := (da.h.State(), da.maxPocLsb);
    var p: nat, size: nat := 0, fileSize;
    var len, nalStart, nalEnd := FindNalUnit(buf, p, size);
    NextInBuffer(buf[p..p + size + SLACK], size, file, p);
    assert file[0..] == file;
    BeforeBoth([], [], Watch(look, st, Units(file, 0)));
    while len > 0
      invariant p + size == fileSize && da.Valid() && buf[..fileSize] == file
      invariant Watch(look, st, Units(file, 0)) ==
                Before(da.history, Watch(look, (da.h.State(), da.maxPocLsb), Units(file[p..], p)))
      invariant len > 0 <==> Next(file[p..]).Some?
      invariant len > 0 ==> Next(file[p..]) == Some((nalStart, nalEnd))
      decreases size
    {
      WatchStep(look, (da.h.State(), da.maxPocLsb), file[p..], p);
      FileScan.Slices(file, p, nalStart, nalEnd);
      FileScan.SliceOfPrefix(buf, fileSize, p + nalStart, p + nalEnd);
      ghost var seen := da.history;
      known := ProcessUnit(da, buf, p + nalStart, nalEnd - nalStart);
      if !known {
        return;
      }
      BeforeBoth(seen, da.history[|seen|..],
                 Watch(look, (da.h.State(), da.maxPocLsb), Units(file[p + nalEnd..], p + nalEnd)));
      p := p + nalEnd;
      size := size - nalEnd;
      len, nalStart, nalEnd := FindNalUnit(buf, p, size);
      NextInBuffer(buf[p..p + size + SLACK], size, file, p);
    }
    WatchStep(look, (da.h.State(), da.maxPocLsb), file[p..], p);
    assert da.history + [] == da.history;
    known := true;
  }

  /** The units of the file make the history, and the report is about that history. */
  method Analyze(buf: array<byte>, fileSize: nat, haveSei: bool)
    returns (known: bool, da: DependenceAnalysis, lines: seq<Line>)
    requires fileSize + SLACK <= buf.Length
    ensures
      var seen := Watch(Look(haveSei), (EmptyState(), 0), Units(buf[..fileSize], 0));
      (known <==> seen.Some?) &&
      (known ==>
         da.Valid() && seen == Some(da.history) && SortedBy(GlobalKey, da.frames) && |lines| == |da.frames| &&
         forall i :: 0 <= i < |lines| ==> LineOk(da.frames, i, lines[i]))
  {
    hide Units, Watch, Look, EmptyState, LineOk, SortedBy, DependenceAnalysis.Consistent;
    da := new DependenceAnalysis(haveSei);
    lines := [];
    known := Feed(da, buf, fileSize);
    if known {
      lines := da.ReportResults();
    }
  }
}
