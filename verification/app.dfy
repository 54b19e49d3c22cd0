/**
 * The page controller of main.js: the application state {data, source,
 * name}, the built-in dataset selector, the file loader, and the PCA button
 * that hands the dataset to the projection service.
 */
module App {
  import opened Options
  import opened Delimited
  import opened Preview
  import opened Console
  import opened Text

  /** Where the active dataset came from. */
  datatype Source = Builtin | FromFile

  /** A file chosen in the file input: its name and its text as `FileReader.readAsText` delivers it. */
  datatype File = File(name: string, text: string)

  /** The right-hand panel: as the page was loaded, a preview, or the "load a dataset first" notice. */
  datatype Panel = Initial | Showing(preview: Preview) | LoadFirst

  /** One call of the projection service: `pca_plot({data, divid, width, height})`. */
  datatype PlotRequest = PlotRequest(data: Dataset, target: string, width: int, height: int)

  /** What happens to the plot element `#myPCA`, in order. */
  datatype SurfaceOp = ClearContent | MarkHasPlot | Plot(request: PlotRequest)

  const IrisValue: string := "iris"
  const IrisName: string := "Iris"
  const IrisTitle: string := "Iris (built-in)"
  const IrisSelected: string := "Built-in Iris data selected"
  const FileTitlePrefix: string := "Loaded file: "
  const PlotTarget: string := "myPCA"
  const MinPlotWidth: int := 520
  const PlotMargin: int := 24
  const PlotHeight: int := 460

  /** The plot width for a target of the given client width: the width less the margin, never below the floor. */
  function PlotWidth(clientWidth: int): (w: int)
    ensures w >= MinPlotWidth && w >= clientWidth - PlotMargin
    ensures w == MinPlotWidth || w == clientWidth - PlotMargin
  {
    if clientWidth - PlotMargin > MinPlotWidth then clientWidth - PlotMargin else MinPlotWidth
  }

  /** What the PCA button asks of the projection service: nothing without data, else the whole dataset and the geometry. */
  function Dispatch(data: Option<Dataset>, clientWidth: int): (r: Option<PlotRequest>)
    ensures r.None? <==> data.None? || data.value == []
    ensures r.Some? ==> r.value == PlotRequest(data.value, PlotTarget, PlotWidth(clientWidth), PlotHeight)
  {
    if data.None? || data.value == [] then None
    else Some(PlotRequest(data.value, PlotTarget, PlotWidth(clientWidth), PlotHeight))
  }

  /** The plot element carries the `has-plot` class once it has been marked. */
  function HasPlot(surface: seq<SurfaceOp>): bool {
    MarkHasPlot in surface
  }

  /** The requests handed to the projection service, in order. */
  function Requests(surface: seq<SurfaceOp>): seq<PlotRequest> {
    if surface == [] then []
    else if surface[0].Plot? then [surface[0].request] + Requests(surface[1..])
    else Requests(surface[1..])
  }

  /** Every request made of the projection service carries a non-empty dataset and a geometry within the bounds. */
  ghost predicate RequestsWellFormed(surface: seq<SurfaceOp>) {
    forall i :: 0 <= i < |surface| && surface[i].Plot? ==>
      && surface[i].request.data != []
      && surface[i].request.target == PlotTarget
      && surface[i].request.width >= MinPlotWidth
      && surface[i].request.height == PlotHeight
      && 0 < i && surface[i - 1] == MarkHasPlot
  }

  class App {
    /** The built-in dataset, supplied by the data package. */
    const iris: Dataset
    const log: DisplayLog

    var data: Option<Dataset>
    var source: Option<Source>
    var name: Option<string>
    var panel: Panel
    var surface: seq<SurfaceOp>

    /** The file the state was last loaded from, when it was. */
    ghost var file: File

    /**
     * The three state fields always belong to the same selection: all unset,
     * or the built-in dataset under its name, or the parse of the last file
     * under that file's name.
     */
    ghost predicate Valid()
      reads this, log
    {
      && log.Valid()
      && (source.None? <==> data.None?)
      && (source.None? <==> name.None?)
      && (source == Some(Builtin) ==> data == Some(iris) && name == Some(IrisName))
      && (source == Some(FromFile) ==> data == Some(Parse(file.text)) && name == Some(file.name))
      && RequestsWellFormed(surface)
    }

    constructor (iris: Dataset, log: DisplayLog)
      requires log.Valid()
      ensures Valid()
      ensures this.iris == iris && this.log == log
      ensures data == None && source == None && name == None
      ensures panel == Initial && surface == []
    {
      this.iris := iris;
      this.log := log;
      data, source, name := None, None, None;
      panel := Initial;
      surface := [];
      file := File("", "");
    }

    /** The built-in dataset selector changed to `value`; only "iris" does anything. */
    method SelectBuiltin(value: string)
      requires Valid()
      modifies this, log
      ensures Valid()
      ensures value != IrisValue ==>
        && data == old(data) && source == old(source) && name == old(name)
        && panel == old(panel) && surface == old(surface) && log.entries == old(log.entries)
      ensures value == IrisValue ==>
        && data == Some(iris) && source == Some(Builtin) && name == Some(IrisName)
        && log.entries == old(log.entries) + (if log.mounted then [Entry(IrisSelected, Log)] else [])
        && panel == Showing(Render(Some(iris), IrisTitle))
        && surface == old(surface) + [ClearContent]
    {
      if value == IrisValue {
        data := Some(iris);
        source := Some(Builtin);
        name := Some(IrisName);
        log.Display([Primitive(IrisSelected)], Log);
        LineTextOfOne(Primitive(IrisSelected));
        panel := Showing(Render(data, IrisTitle));
        surface := surface + [ClearContent];
      }
    }

    /** A file was chosen (None when the selection is empty); its text is parsed and adopted. */
    method LoadFile(chosen: Option<File>)
      requires Valid()
      modifies this
      ensures Valid()
      ensures chosen.None? ==>
        && data == old(data) && source == old(source) && name == old(name)
        && panel == old(panel) && surface == old(surface)
      ensures chosen.Some? ==>
        && data == Some(Parse(chosen.value.text)) && source == Some(FromFile)
        && name == Some(chosen.value.name)
        && panel == Showing(Render(data, FileTitlePrefix + chosen.value.name))
        && surface == old(surface) + [ClearContent]
    {
      if chosen.Some? {
        var f := chosen.value;
        var parsed := Parse(f.text);
        data := Some(parsed);
        source := Some(FromFile);
        name := Some(f.name);
        file := f;
        panel := Showing(Render(data, FileTitlePrefix + f.name));
        surface := surface + [ClearContent];
      }
    }

    /**
     * The PCA button. Without data it shows the "load a dataset first"
     * notice and changes nothing else; otherwise it marks the plot element
     * `has-plot` and then calls the projection service with the dataset and
     * the geometry. Returns the request made, if any.
     */
    method ClickPca(clientWidth: int) returns (request: Option<PlotRequest>)
      requires Valid()
      modifies this
      ensures Valid()
      ensures request == Dispatch(old(data), clientWidth)
      ensures data == old(data) && source == old(source) && name == old(name)
      ensures request.None? ==> panel == LoadFirst && surface == old(surface)
      ensures request.Some? ==>
        && panel == old(panel)
        && surface == old(surface) + [MarkHasPlot, Plot(request.value)]
    {
      if data.None? || data.value == [] {
        // The preview is cleared and at once replaced by the notice; only the notice remains.
        panel := LoadFirst;
        return None;
      }
      var r := PlotRequest(data.value, PlotTarget, PlotWidth(clientWidth), PlotHeight);
      WellFormedAfterDispatch(surface, r);
      surface := surface + [MarkHasPlot, Plot(r)];
      request := Some(r);
    }
  }

  /** After a dispatch the plot element is marked, and the last request is the one just made. */
  lemma DispatchMarksSurface(surface: seq<SurfaceOp>, r: PlotRequest)
    ensures HasPlot(surface + [MarkHasPlot, Plot(r)])
    ensures Requests(surface + [MarkHasPlot, Plot(r)]) == Requests(surface) + [r]
  {
    var tail := [MarkHasPlot, Plot(r)];
    RequestsAppend(surface, tail);
    assert tail[1..] == [Plot(r)] && [Plot(r)][1..] == [];
    assert Requests(tail) == Requests([Plot(r)]) == [r];
    assert (surface + tail)[|surface|] == MarkHasPlot;
  }

  /** A dispatch of a non-empty dataset with the computed geometry keeps every request well formed. */
  lemma WellFormedAfterDispatch(surface: seq<SurfaceOp>, r: PlotRequest)
    requires RequestsWellFormed(surface)
    requires r.data != [] && r.target == PlotTarget && r.width >= MinPlotWidth && r.height == PlotHeight
    ensures RequestsWellFormed(surface + [MarkHasPlot, Plot(r)])
  {
    var s := surface + [MarkHasPlot, Plot(r)];
    forall i | 0 <= i < |s| && s[i].Plot?
      ensures s[i].request.data != [] && s[i].request.target == PlotTarget
      ensures s[i].request.width >= MinPlotWidth && s[i].request.height == PlotHeight
      ensures 0 < i && s[i - 1] == MarkHasPlot
    {
      if i < |surface| {
        assert s[i] == surface[i] && s[i - 1] == surface[i - 1];
      }
    }
  }

  /** The requests of two runs of operations are the requests of each, in order. */
  lemma {:induction false} RequestsAppend(a: seq<SurfaceOp>, b: seq<SurfaceOp>)
    ensures Requests(a + b) == Requests(a) + Requests(b)
  {
    if a == [] {
      assert a + b == b;
    } else {
      var t := a[1..] + b;
      assert (a + b)[0] == a[0] && (a + b)[1..] == t;
      RequestsAppend(a[1..], b);
      if a[0].Plot? {
        assert Requests(a + b) == [a[0].request] + Requests(t);
        ConcatAssoc([a[0].request], Requests(a[1..]), Requests(b));
      }
    }
  }
}
