/**
 * The forecasting model object (class DiseaseOutbreakModel).  The trained
 * network is opaque here: once loaded it is the input shape it was built
 * for and a function from the input window, read in row-major order as
 * `reshape(1, L, F)` reads it, to the next normalized case count.  What is modelled is the object's state and
 * the autoregressive roll-out of predict_future around that function.
 */
module ForecastModel {
  import opened Wrappers
  import opened Series

  /** What a trained network computes: flattened window in, next normalized target out. */
  type Regressor = seq<real> -> real

  /**
   * A trained network as build_model makes it: the input shape
   * `(sequence_length, n_features)` it was built for, and its function.
   */
  datatype Network = Network(steps: nat, width: nat, apply: Regressor)

  /** Keras accepts an input of L time steps of F features only in the shape the network was built for. */
  predicate Accepts(net: Network, L: nat, F: nat)
  {
    L == net.steps && F == net.width
  }

  /** The cells of a matrix in row-major order, as numpy's reshape reads them. */
  function Flatten(m: Matrix): seq<real>
  {
    if m == [] then [] else m[0] + Flatten(m[1..])
  }

  /** A rectangular window flattens to rows x width numbers. */
  lemma {:induction false} FlattenLength(m: Matrix)
    requires Rectangular(m)
    ensures |Flatten(m)| == |m| * Width(m)
  {
    if m != [] {
      assert Rectangular(m[1..]) && (|m| > 1 ==> Width(m[1..]) == Width(m));
      FlattenLength(m[1..]);
    }
  }

  /** The last row of a window with its target cell (the last one) replaced by p. */
  function WithTarget(row: seq<real>, p: real): (r: seq<real>)
    requires |row| > 0
    ensures |r| == |row| && r[|row| - 1] == p
    ensures forall k :: 0 <= k < |row| - 1 ==> r[k] == row[k]
  {
    row[|row| - 1 := p]
  }

  /**
   * One step of the roll-out: drop the oldest row and append a copy of the
   * newest row whose target is the prediction; the other features are held
   * at their last observed values.
   */
  function Advance(w: Matrix, p: real): (w': Matrix)
    requires Rectangular(w) && |w| > 0 && Width(w) > 0
    ensures Rectangular(w') && |w'| == |w| && Width(w') == Width(w)
    ensures w'[..|w| - 1] == w[1..] && w'[|w| - 1] == WithTarget(w[|w| - 1], p)
  {
    var w' := w[1..] + [WithTarget(w[|w| - 1], p)];
    assert forall i :: 0 <= i < |w'| ==> |w'[i]| == Width(w) by {
      forall i | 0 <= i < |w'| ensures |w'[i]| == Width(w) {
        if i < |w| - 1 {
          assert w'[i] == w[i + 1];
        }
      }
    }
    w'
  }

  /** The window after feeding back the predictions ps, one step each. */
  function WindowWith(w: Matrix, ps: seq<real>): (v: Matrix)
    requires Rectangular(w) && |w| > 0 && Width(w) > 0
    ensures Rectangular(v) && |v| == |w| && Width(v) == Width(w)
  {
    if ps == [] then w
    else Advance(WindowWith(w, ps[..|ps| - 1]), ps[|ps| - 1])
  }

  /** The first n predictions of the roll-out, each made on the window its predecessors left. */
  function Rollout(f: Regressor, w: Matrix, n: nat): (ps: seq<real>)
    requires Rectangular(w) && |w| > 0 && Width(w) > 0
    ensures |ps| == n
  {
    if n == 0 then []
    else
      var before := Rollout(f, w, n - 1);
      before + [f(Flatten(WindowWith(w, before)))]
  }

  /** The window predict_future holds after j steps. */
  function WindowAfter(f: Regressor, w: Matrix, j: nat): (v: Matrix)
    requires Rectangular(w) && |w| > 0 && Width(w) > 0
    ensures Rectangular(v) && |v| == |w| && Width(v) == Width(w)
  {
    WindowWith(w, Rollout(f, w, j))
  }

  /** Feeding back one more prediction slides the window once more. */
  lemma WindowWithStep(w: Matrix, ps: seq<real>, p: real)
    requires Rectangular(w) && |w| > 0 && Width(w) > 0
    ensures WindowWith(w, ps + [p]) == Advance(WindowWith(w, ps), p)
  {
    assert (ps + [p])[..|ps|] == ps;
  }

  /** One more step of the roll-out: predict on the current window, then slide it. */
  lemma RolloutStep(f: Regressor, w: Matrix, j: nat)
    requires Rectangular(w) && |w| > 0 && Width(w) > 0
    ensures Rollout(f, w, j + 1) == Rollout(f, w, j) + [f(Flatten(WindowAfter(f, w, j)))]
    ensures WindowAfter(f, w, j + 1) == Advance(WindowAfter(f, w, j), f(Flatten(WindowAfter(f, w, j))))
  {
    WindowWithStep(w, Rollout(f, w, j), f(Flatten(WindowAfter(f, w, j))));
  }

  /** `reshape(1, L, F)` accepts the window: it holds exactly L * F numbers. */
  predicate Reshapes(w: Matrix, L: nat, F: nat)
  {
    |w| * Width(w) == L * F
  }

  /** A shorter forecast is a prefix of a longer one from the same window. */
  lemma {:induction false} RolloutPrefix(f: Regressor, w: Matrix, m: nat, n: nat)
    requires Rectangular(w) && |w| > 0 && Width(w) > 0
    requires m <= n
    ensures Rollout(f, w, m) == Rollout(f, w, n)[..m]
  {
    if m < n {
      RolloutPrefix(f, w, m, n - 1);
      var before := Rollout(f, w, n - 1);
      assert Rollout(f, w, n) == before + [f(Flatten(WindowWith(w, before)))];
      assert Rollout(f, w, n)[..n - 1] == before;
    } else {
      assert Rollout(f, w, n)[..n] == Rollout(f, w, n);
    }
  }

  /** Prediction i of the roll-out is the network applied to the window after i steps. */
  lemma RolloutAt(f: Regressor, w: Matrix, n: nat, i: nat)
    requires Rectangular(w) && |w| > 0 && Width(w) > 0
    requires i < n
    ensures Rollout(f, w, n)[i] == f(Flatten(WindowAfter(f, w, i)))
  {
    RolloutPrefix(f, w, i + 1, n);
    var before := Rollout(f, w, i);
    assert Rollout(f, w, i + 1) == before + [f(Flatten(WindowWith(w, before)))];
    assert Rollout(f, w, n)[i] == Rollout(f, w, i + 1)[i];
  }

  /** The rows the roll-out appends: the last observed row with each prediction as target. */
  function Generated(lastRow: seq<real>, ps: seq<real>): (g: Matrix)
    requires |lastRow| > 0
    ensures |g| == |ps|
    ensures forall i :: 0 <= i < |ps| ==> g[i] == WithTarget(lastRow, ps[i])
  {
    seq(|ps|, i requires 0 <= i < |ps| => WithTarget(lastRow, ps[i]))
  }

  /** After feeding back ps != [], the newest row is the last observed row with the last of ps as target. */
  lemma {:induction false} NewestRow(w: Matrix, ps: seq<real>)
    requires Rectangular(w) && |w| > 0 && Width(w) > 0 && ps != []
    ensures WindowWith(w, ps)[|w| - 1] == WithTarget(w[|w| - 1], ps[|ps| - 1])
  {
    var front := ps[..|ps| - 1];
    var v := WindowWith(w, front);
    var p := ps[|ps| - 1];
    assert WindowWith(w, ps)[|w| - 1] == WithTarget(v[|w| - 1], p);
    if front != [] {
      NewestRow(w, front);
      assert v[|w| - 1] == WithTarget(w[|w| - 1], front[|front| - 1]);
      assert WithTarget(v[|w| - 1], p) == WithTarget(w[|w| - 1], p);
    }
  }

  /**
   * Closed form of the window: after feeding back ps it is the observed
   * rows from |ps| on followed by one generated row per prediction, with
   * every other feature frozen at the last observation.
   */
  lemma {:induction false} WindowWithClosedForm(w: Matrix, ps: seq<real>)
    requires Rectangular(w) && |w| > 0 && Width(w) > 0
    ensures |ps| <= |w + Generated(w[|w| - 1], ps)|
    ensures WindowWith(w, ps) == (w + Generated(w[|w| - 1], ps))[|ps|..]
  {
    if ps == [] {
      ClosedFormStart(w);
    } else {
      var front, p := ps[..|ps| - 1], ps[|ps| - 1];
      assert ps == front + [p];
      WindowWithClosedForm(w, front);
      ClosedFormStep(w, front, p);
    }
  }

  /** Before any prediction the window is the observed one. */
  lemma ClosedFormStart(w: Matrix)
    requires Rectangular(w) && |w| > 0 && Width(w) > 0
    ensures WindowWith(w, []) == (w + Generated(w[|w| - 1], []))[0..]
  {
    assert Generated(w[|w| - 1], []) == [];
    assert (w + [])[0..] == w;
  }

  /** One step of the closed form: sliding the window appends the newest generated row. */
  lemma ClosedFormStep(w: Matrix, ps: seq<real>, p: real)
    requires Rectangular(w) && |w| > 0 && Width(w) > 0
    requires WindowWith(w, ps) == (w + Generated(w[|w| - 1], ps))[|ps|..]
    ensures WindowWith(w, ps + [p]) == (w + Generated(w[|w| - 1], ps + [p]))[|ps| + 1..]
  {
    var last := w[|w| - 1];
    var row := WithTarget(last, p);
    var a := w + Generated(last, ps);
    GeneratedStep(last, ps, p);
    AppendAssoc(w, Generated(last, ps), row);
    AppendSlice(a, row, |ps| + 1);
    SlideStep(w, ps, p);
    SliceOfSlice(a, |ps|, 1);
  }

  /** Generating one more row appends it. */
  lemma GeneratedStep(last: seq<real>, ps: seq<real>, p: real)
    requires |last| > 0
    ensures Generated(last, ps + [p]) == Generated(last, ps) + [WithTarget(last, p)]
  {
  }

  /** Feeding back p drops the oldest row and appends the last observed row with target p. */
  lemma SlideStep(w: Matrix, ps: seq<real>, p: real)
    requires Rectangular(w) && |w| > 0 && Width(w) > 0
    ensures WindowWith(w, ps + [p]) == WindowWith(w, ps)[1..] + [WithTarget(w[|w| - 1], p)]
  {
    WindowWithStep(w, ps, p);
    NewestRow(w, ps + [p]);
    SplitLast(WindowWith(w, ps + [p]));
  }

  lemma SliceOfSlice<T>(s: seq<T>, a: nat, b: nat)
    requires a + b <= |s|
    ensures s[a..][b..] == s[a + b..]
  {
  }

  lemma SplitLast<T>(u: seq<T>)
    requires |u| > 0
    ensures u == u[..|u| - 1] + [u[|u| - 1]]
  {
  }

  lemma AppendAssoc<T>(a: seq<T>, b: seq<T>, x: T)
    ensures a + (b + [x]) == (a + b) + [x]
  {
  }

  lemma AppendSlice<T>(s: seq<T>, x: T, k: nat)
    requires k <= |s|
    ensures (s + [x])[k..] == s[k..] + [x]
  {
  }

  /** After j steps the window is the observed rows from j on, followed by the j generated rows. */
  lemma WindowAfterClosedForm(f: Regressor, w: Matrix, j: nat)
    requires Rectangular(w) && |w| > 0 && Width(w) > 0
    ensures WindowAfter(f, w, j) == (w + Generated(w[|w| - 1], Rollout(f, w, j)))[j..]
  {
    WindowWithClosedForm(w, Rollout(f, w, j));
  }

  /**
   * Once the roll-out has run at least as many steps as the window has
   * rows, the window holds only generated rows: every non-target feature
   * of every row is the last observed value.
   */
  lemma WindowForgetsHistory(f: Regressor, w: Matrix, j: nat, i: nat, k: nat)
    requires Rectangular(w) && |w| > 0 && Width(w) > 0
    requires j >= |w| && i < |w| && k < Width(w) - 1
    ensures WindowAfter(f, w, j)[i][k] == w[|w| - 1][k]
    ensures WindowAfter(f, w, j)[i][Width(w) - 1] == Rollout(f, w, j)[j - |w| + i]
  {
    WindowAfterClosedForm(f, w, j);
    var g := Generated(w[|w| - 1], Rollout(f, w, j));
    assert WindowAfter(f, w, j)[i] == (w + g)[j + i] == g[j + i - |w|];
  }

  /**
   * What predict_future returns for a window and a horizon: nothing for a
   * zero horizon; otherwise the first step fails if no model is loaded, if
   * the window's element count is not L * F, if the network was built for
   * another shape than (L, F), or if the window has no row or no column to
   * copy; after that the shape never changes, so either the first step
   * fails or all n succeed.
   */
  function PredictFutureResult(model: Option<Network>, w: Matrix, n: nat, L: nat, F: nat): (r: Result<seq<real>>)
    requires Rectangular(w)
    ensures r.Ok? <==>
              n == 0 || (model.Some? && Reshapes(w, L, F) && Accepts(model.value, L, F) && |w| > 0 && Width(w) > 0)
    ensures r.Ok? ==> |r.value| == n
    ensures r.Ok? && n > 0 ==> r.value == Rollout(model.value.apply, w, n)
    ensures r.Err? && model.None? ==> r.error == ModelNotLoaded
    ensures r.Err? && model.Some? && !Reshapes(w, L, F) ==> r.error == BadReshape
    ensures r.Err? && model.Some? && Reshapes(w, L, F) && !Accepts(model.value, L, F) ==>
              r.error == IncompatibleInput
  {
    if n == 0 then Ok([])
    else if model.None? then Err(ModelNotLoaded)
    else if !Reshapes(w, L, F) then Err(BadReshape)
    else if !Accepts(model.value, L, F) then Err(IncompatibleInput)
    else if |w| == 0 || Width(w) == 0 then Err(EmptyIndex)
    else Ok(Rollout(model.value.apply, w, n))
  }

  class DiseaseOutbreakModel {
    const sequenceLength: nat
    const nFeatures: nat
    const modelType: string
    var model: Option<Network>

    /** A new model object knows its input shape and holds no trained network yet. */
    constructor (sequenceLength: nat := 30, nFeatures: nat := 4, modelType: string := "LSTM")
      ensures this.sequenceLength == sequenceLength && this.nFeatures == nFeatures
      ensures this.modelType == modelType && model == None
    {
      this.sequenceLength := sequenceLength;
      this.nFeatures := nFeatures;
      this.modelType := modelType;
      model := None;
    }

    /** load_model: the network read from disk, passed in here, becomes the model. */
    method LoadModel(trained: Network) returns (loaded: Network)
      modifies this
      ensures model == Some(trained) && loaded == trained
    {
      model := Some(trained);
      loaded := trained;
    }

    /** save_model: fails when nothing is loaded; otherwise hands over the network to write. */
    method SaveModel() returns (r: Result<Network>)
      ensures model.None? <==> r.Err?
      ensures r.Err? ==> r.error == ModelNotLoaded
      ensures r.Ok? ==> model == Some(r.value)
    {
      if model.None? {
        return Err(ModelNotLoaded);
      }
      r := Ok(model.value);
    }

    /**
     * predict: one prediction per window of the batch, each on the window
     * as the network reads it; fails with no model, with an empty batch, or
     * when a window is not the shape the loaded network was built for.  The
     * object's own sequence_length and n_features play no part.
     */
    method Predict(batch: seq<Matrix>) returns (r: Result<seq<real>>)
      ensures model.None? ==> r == Err(ModelNotLoaded)
      ensures model.Some? ==>
                (r.Ok? <==> |batch| > 0 &&
                            forall b :: 0 <= b < |batch| ==> Shaped(batch[b], model.value.steps, model.value.width))
      ensures r.Err? && model.Some? ==> r.error == (if batch == [] then NoSamples else IncompatibleInput)
      ensures r.Ok? ==> (model.Some? && |r.value| == |batch| &&
                         forall b :: 0 <= b < |batch| ==> r.value[b] == model.value.apply(Flatten(batch[b])))
    {
      if model.None? {
        return Err(ModelNotLoaded);
      }
      if batch == [] {
        return Err(NoSamples);
      }
      var net := model.value;
      var out: seq<real> := [];
      var b := 0;
      while b < |batch|
        invariant 0 <= b <= |batch|
        invariant |out| == b
        invariant forall k :: 0 <= k < b ==> Shaped(batch[k], net.steps, net.width)
        invariant forall k :: 0 <= k < b ==> out[k] == net.apply(Flatten(batch[k]))
      {
        if !Shaped(batch[b], net.steps, net.width) {
          return Err(IncompatibleInput);
        }
        out := out + [net.apply(Flatten(batch[b]))];
        b := b + 1;
      }
      r := Ok(out);
    }

    /**
     * predict_future: n_days autoregressive steps from the last observed
     * window, each prediction fed back as the newest row's target.
     */
    method PredictFuture(lastSequence: Matrix, nDays: nat) returns (r: Result<seq<real>>)
      requires Rectangular(lastSequence)
      ensures r == PredictFutureResult(model, lastSequence, nDays, sequenceLength, nFeatures)
    {
      var predictions: seq<real> := [];
      var current := lastSequence;
      var step := 0;
      while step < nDays
        invariant 0 <= step <= nDays
        invariant step > 0 ==> model.Some? && |lastSequence| > 0 && Width(lastSequence) > 0 &&
                               Reshapes(lastSequence, sequenceLength, nFeatures) &&
                               Accepts(model.value, sequenceLength, nFeatures)
        invariant step > 0 ==> current == WindowAfter(model.value.apply, lastSequence, step) &&
                               predictions == Rollout(model.value.apply, lastSequence, step)
        invariant step == 0 ==> current == lastSequence && predictions == []
        invariant |current| == |lastSequence| && Width(current) == Width(lastSequence)
      {
        assert Reshapes(current, sequenceLength, nFeatures) == Reshapes(lastSequence, sequenceLength, nFeatures);
        if model.None? {
          assert step == 0;
          return Err(ModelNotLoaded);
        }
        if !Reshapes(current, sequenceLength, nFeatures) {
          assert step == 0;
          return Err(BadReshape);
        }
        if !Accepts(model.value, sequenceLength, nFeatures) {
          assert step == 0;
          return Err(IncompatibleInput);
        }
        var next := model.value.apply(Flatten(current));
        predictions := predictions + [next];
        if |current| == 0 || Width(current) == 0 {
          assert step == 0;
          return Err(EmptyIndex);
        }
        RolloutStep(model.value.apply, lastSequence, step);
        current := Advance(current, next);
        step := step + 1;
      }
      assert nDays > 0 ==> predictions == Rollout(model.value.apply, lastSequence, nDays);
      r := Ok(predictions);
    }
  }

  /** A window of exactly L rows of F features. */
  predicate Shaped(w: Matrix, L: nat, F: nat)
  {
    |w| == L && forall i :: 0 <= i < |w| ==> |w[i]| == F
  }
}
