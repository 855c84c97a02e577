/** The non-network parts of lib/CNNModel.py: the fixed-window character encoding done by
    `predict` and `predicts` before they call the network, and the parameter list that `save`
    returns and `load` reads back. */
module CnnModel {
  import opened Wrappers

  /** `max(maxlen - len(text), 0)`: short texts are right-aligned in the window. */
  function Offset(maxlen: nat, text: string): (offset: nat)
    ensures offset + (if |text| < maxlen then |text| else maxlen) == maxlen
  {
    if maxlen - |text| > 0 then maxlen - |text| else 0
  }

  /** The row for `text`: zeros before the offset, then the indices of the first `maxlen`
      characters, an unknown character leaving its slot at 0. */
  function Encoding(text: string, maxlen: nat, charIndices: map<char, int>): (row: seq<int>)
    ensures |row| == maxlen
  {
    var offset := Offset(maxlen, text);
    seq(maxlen, j requires 0 <= j < maxlen =>
      if j < offset then 0
      else if text[j - offset] in charIndices then charIndices[text[j - offset]]
      else 0)
  }

  /** Every character `predicts` looks at (the first `maxlen`) has an index. */
  predicate KnownPrefix(text: string, maxlen: nat, charIndices: map<char, int>)
  {
    forall t :: 0 <= t < |text| && t < maxlen ==> text[t] in charIndices
  }

  /** The encoding loop of `predict`, on a zeroed 1 x maxlen array. */
  method EncodeText(text: string, maxlen: nat, charIndices: map<char, int>) returns (row: seq<int>)
    ensures |row| == maxlen
    ensures forall j :: 0 <= j < Offset(maxlen, text) ==> row[j] == 0
    ensures forall t :: 0 <= t < |text| && t < maxlen ==>
      row[t + Offset(maxlen, text)] == if text[t] in charIndices then charIndices[text[t]] else 0
    ensures row == Encoding(text, maxlen, charIndices)
  {
    var x := new int[maxlen](_ => 0);
    var offset := Offset(maxlen, text);
    var t := 0;
    while t < |text|
      invariant 0 <= t <= |text| && t <= maxlen
      invariant forall j :: 0 <= j < maxlen && (j < offset || j >= t + offset) ==> x[j] == 0
      invariant forall k :: 0 <= k < t ==>
        x[k + offset] == if text[k] in charIndices then charIndices[text[k]] else 0
    {
      if t >= maxlen {
        break;
      }
      var c := text[t];
      if c in charIndices {
        x[t + offset] := charIndices[c];
      }
      t := t + 1;
    }
    row := x[..];
    assert t + offset == maxlen;
    assert forall j :: 0 <= j < maxlen ==> row[j] == Encoding(text, maxlen, charIndices)[j];
  }

  /** The encoding loops of `predicts`, on a zeroed len(texts) x maxlen array.
      An unknown character raises KeyError (None); otherwise row i is the encoding of texts[i]. */
  method EncodeTexts(texts: seq<string>, maxlen: nat, charIndices: map<char, int>)
    returns (rows: Option<seq<seq<int>>>)
    ensures rows.Some? <==> forall i :: 0 <= i < |texts| ==> KnownPrefix(texts[i], maxlen, charIndices)
    ensures rows.Some? ==> |rows.value| == |texts|
    ensures rows.Some? ==>
      forall i :: 0 <= i < |texts| ==> rows.value[i] == Encoding(texts[i], maxlen, charIndices)
  {
    var X := new int[|texts|, maxlen]((_, _) => 0);
    for i := 0 to |texts|
      invariant forall i' :: 0 <= i' < i ==> KnownPrefix(texts[i'], maxlen, charIndices)
      invariant forall i', j :: 0 <= i' < i && 0 <= j < maxlen ==>
        X[i', j] == Encoding(texts[i'], maxlen, charIndices)[j]
      invariant forall i', j :: i <= i' < |texts| && 0 <= j < maxlen ==> X[i', j] == 0
    {
      var text := texts[i];
      var offset := Offset(maxlen, text);
      var t := 0;
      while t < |text|
        invariant 0 <= t <= |text| && t <= maxlen
        invariant forall k :: 0 <= k < t ==> text[k] in charIndices
        invariant forall i', j :: 0 <= i' < i && 0 <= j < maxlen ==>
          X[i', j] == Encoding(texts[i'], maxlen, charIndices)[j]
        invariant forall i', j :: i < i' < |texts| && 0 <= j < maxlen ==> X[i', j] == 0
        invariant forall j :: 0 <= j < maxlen && (j < offset || j >= t + offset) ==> X[i, j] == 0
        invariant forall k :: 0 <= k < t ==> X[i, k + offset] == charIndices[text[k]]
      {
        if t >= maxlen {
          break;
        }
        var c := text[t];
        if c !in charIndices {
          return None;
        }
        X[i, t + offset] := charIndices[c];
        t := t + 1;
      }
      assert t + offset == maxlen;
      assert forall j :: 0 <= j < maxlen ==> X[i, j] == Encoding(text, maxlen, charIndices)[j];
    }
    var result := seq(|texts|, i requires 0 <= i < |texts| reads X =>
      seq(maxlen, j requires 0 <= j < maxlen reads X => X[i, j]));
    assert forall i :: 0 <= i < |texts| ==> result[i] == Encoding(texts[i], maxlen, charIndices);
    rows := Some(result);
  }

  /** A Python value as stored in the parameter list. */
  datatype Value = Str(s: string) | Int(i: int) | Float(r: real) | Bool(b: bool) | NoneValue | List(items: seq<Value>)

  /** The configuration of a CNNModel; the Keras network itself is not part of this model. */
  class CNNModel {
    var embeddingsPath: Value
    var embeddingDim: Value
    var lr: Value
    var maxlen: Value
    var pcaEmbeddingDim: Value
    var batchSize: Value
    var gruSize: Value
    var hiddenSize: Value
    var secondGruSize: Value
    var decay: Value
    var epochs: Value
    var lstm: Value
    var denseOnly: Value
    var kernelSize: Value

    constructor (embeddingsPath: Value, embeddingDim: Value, lr: Value, maxlen: Value,
                 pcaEmbeddingDim: Value, batchSize: Value, gruSize: Value, hiddenSize: Value,
                 secondGruSize: Value, decay: Value, epochs: Value, lstm: Value, denseOnly: Value,
                 kernelSize: Value)
      ensures Save() == [embeddingsPath, embeddingDim, lr, maxlen, pcaEmbeddingDim, batchSize,
                         gruSize, hiddenSize, secondGruSize, decay, epochs, lstm, denseOnly]
      ensures this.kernelSize == kernelSize
    {
      this.embeddingsPath := embeddingsPath;
      this.embeddingDim := embeddingDim;
      this.lr := lr;
      this.maxlen := maxlen;
      this.pcaEmbeddingDim := pcaEmbeddingDim;
      this.batchSize := batchSize;
      this.gruSize := gruSize;
      this.hiddenSize := hiddenSize;
      this.secondGruSize := secondGruSize;
      this.decay := decay;
      this.epochs := epochs;
      this.lstm := lstm;
      this.denseOnly := denseOnly;
      this.kernelSize := kernelSize;
    }

    /** The list `save` returns: thirteen fields, `kernel_size` not among them. */
    function Save(): (info: seq<Value>)
      reads this
      ensures |info| == 13
      ensures info[3] == maxlen && info[12] == denseOnly
    {
      [embeddingsPath, embeddingDim, lr, maxlen, pcaEmbeddingDim, batchSize,
       gruSize, hiddenSize, secondGruSize, decay, epochs, lstm, denseOnly]
    }

    /** `load`: assigns info[0..12] to the saved fields in order. A list shorter than 13 raises
        IndexError at the first missing index, after the earlier fields were assigned. */
    method Load(info: seq<Value>) returns (ok: bool)
      modifies this
      ensures ok <==> |info| >= 13
      ensures embeddingsPath == if 0 < |info| then info[0] else old(embeddingsPath)
      ensures embeddingDim == if 1 < |info| then info[1] else old(embeddingDim)
      ensures lr == if 2 < |info| then info[2] else old(lr)
      ensures maxlen == if 3 < |info| then info[3] else old(maxlen)
      ensures pcaEmbeddingDim == if 4 < |info| then info[4] else old(pcaEmbeddingDim)
      ensures batchSize == if 5 < |info| then info[5] else old(batchSize)
      ensures gruSize == if 6 < |info| then info[6] else old(gruSize)
      ensures hiddenSize == if 7 < |info| then info[7] else old(hiddenSize)
      ensures secondGruSize == if 8 < |info| then info[8] else old(secondGruSize)
      ensures decay == if 9 < |info| then info[9] else old(decay)
      ensures epochs == if 10 < |info| then info[10] else old(epochs)
      ensures lstm == if 11 < |info| then info[11] else old(lstm)
      ensures denseOnly == if 12 < |info| then info[12] else old(denseOnly)
      ensures kernelSize == old(kernelSize)
    {
      if |info| < 1 { return false; }
      embeddingsPath := info[0];
      if |info| < 2 { return false; }
      embeddingDim := info[1];
      if |info| < 3 { return false; }
      lr := info[2];
      if |info| < 4 { return false; }
      maxlen := info[3];
      if |info| < 5 { return false; }
      pcaEmbeddingDim := info[4];
      if |info| < 6 { return false; }
      batchSize := info[5];
      if |info| < 7 { return false; }
      gruSize := info[6];
      if |info| < 8 { return false; }
      hiddenSize := info[7];
      if |info| < 9 { return false; }
      secondGruSize := info[8];
      if |info| < 10 { return false; }
      decay := info[9];
      if |info| < 11 { return false; }
      epochs := info[10];
      if |info| < 12 { return false; }
      lstm := info[11];
      if |info| < 13 { return false; }
      denseOnly := info[12];
      return true;
    }

    /** `load(path, source.save(path))`: the thirteen saved fields are restored in order and
        `kernel_size` keeps the value it had. */
    method LoadSaved(source: CNNModel) returns (ok: bool)
      modifies this
      ensures ok
      ensures Save() == old(source.Save())
      ensures kernelSize == old(kernelSize)
    {
      var info := source.Save();
      ok := Load(info);
      assert info[..13] == info;
    }
  }
}
