# DigitRecognition core, modelled in Dafny

This project models the numerical core of DigitRecognition, an app that recognises
hand-drawn MNIST digits, and of its companion LinearAlgebraDemo. The model has three parts:

- **The vector/matrix layer.** `Vector` and `Matrix` are reference types that own a flat
  buffer, stored row-major. They have initialisers, subscripts, `==` and an iterator. Their
  arithmetic is written on Accelerate's vDSP and cBLAS routines: `vDSP_mmul`,
  `cblas_sgemv`, `vDSP_vadd`, `vsub`, `vsmul`, `vsma`, `vmul`, `vthres`, `maxv`, `maxvi` and
  `sve`.
- **The training code.**
  - `SGDTwoHiddenLayer` is a 784-512-256-10 perceptron with ReLU and softmax, trained by
    one-sample SGD on the softmax/cross-entropy gradient.
  - `SGDSingleLayer` is a softmax classifier.
  - The free-standing `LinearAlgebra.test` and `LinearAlgebra.trainStep` are the same
    classifier written straight on the kernels.
  - `category(of:)` picks the predicted class.
- **The IDX decoder.** `IDXSequence` reads the header of an MNIST image file and a label
  file, then yields one image item and one label item per record.

How the model is built:

- **Kernels.** Each Accelerate routine is a method over Dafny arrays in module `Kernels`. It
  is proved against a function over `seq<real>` in module `LinAlgSpec`, which gives the
  routine's index-level meaning.
- **Buffers and pointers.** `Vector` and `Matrix` (module `Buffers`) are classes whose
  buffer is an `array<real>`. A pointer into the middle of a buffer, as in
  `buffer.baseAddress!.advanced(by:)`, becomes an (array, offset) pair.
- **Operations.** The operators and methods (`VectorOps`, `MatrixOps`) allocate their
  result and state it as a spec function of their inputs.
- **Training.** The training methods update the weight buffers in place. Their contracts
  state the new parameters as a spec function of the old ones: `TwoHiddenLayer.Step`,
  `SingleLayer.Step`, and `LinAlgSpec.OuterUpdate` with `Descend`. Lemmas then prove that
  this function is the gradient-descent step `W - lr * (delta ⊗ a)`, `b - lr * delta`.
- **IDX decoding.** The decoder reads from `ByteStream` objects. Pure functions say what
  each read leaves (`ParseHeader`, `NextSpec`, `Records`). Writer functions
  (`EncodeUInt32`, `EncodeHeader`) give the round trips.
- **Parameters.** Real arithmetic stands in for `Float`. `softmax` is a parameter: any map
  that preserves length. The random initial weights of `SGDTwoHiddenLayer` are constructor
  parameters.

The two apps each define their own copy of `Vector` and `Matrix`: LinearAlgebraDemo in
`LinearAlgebra.swift`, DigitRecognition in `Vector.swift` and `Matrix.swift`. Where both
copies define a member (the initialisers, `==`, the subscripts, `innerProduct`, `max`, `sum`
and `softmax`, `Matrix.count` and the vector iterator), the two agree and the member is modelled
once. LinearAlgebraDemo's statics `LinearAlgebra.vectorTimesMatrix`, `matrixTimesVector` and
`matrixTimesMatrix` (`LinearAlgebraDemo/Services/LinearAlgebra.swift:339-382`) make the same
`vDSP_mmul` calls, with the same preconditions, as DigitRecognition's `Vector * Matrix`,
`Matrix * Vector` and `Matrix * Matrix`; `VectorOps.TimesMatrix`, `MatrixOps.TimesVector` and
`MatrixOps.TimesMatrix` model both. The remaining vector and matrix operations exist only in
DigitRecognition's copy, and that is the copy modelled, including where LinearAlgebraDemo's
`SGDSingleLayer` calls them (see "Left out"). The `Float`
overloads are modelled; the `Double` overloads are the same code.

## Model

| member | source | states |
|---|---|---|
| LinAlgSpec.DotIsSumOfHadamard | DigitRecognition/Models/Vector.swift:241-254 | the inner product equals the sum of the element-wise product |
| LinAlgSpec.DotCommutes | DigitRecognition/Models/Vector.swift:241-254 | the inner product is symmetric in its two vectors |
| LinAlgSpec.FlattenAt | DigitRecognition/Models/Matrix.swift:26-41 | for rows of equal length n, the rows flatten to (number of rows) * n entries, and entry (i, j) sits at flat index i * n + j |
| LinAlgSpec.FlattenLength | DigitRecognition/Models/Matrix.swift:30-35 | rows all of length n flatten to (number of rows) * n entries: the count the initialiser checks |
| LinAlgSpec.MatMatOneRow | LinearAlgebraDemo/Services/LinearAlgebra.swift:339-352 | vDSP_mmul with m = 1 is the vector-times-matrix product: entry j is v dotted with column j |
| LinAlgSpec.MatMatOneColumn | LinearAlgebraDemo/Services/LinearAlgebra.swift:354-367 | vDSP_mmul with n = 1 is the matrix-times-vector product: entry i is row i dotted with x |
| LinAlgSpec.MatMatInner | DigitRecognition/Models/Vector.swift:241-254 | vDSP_mmul with m = n = 1 is the one-entry inner product |
| LinAlgSpec.MatMatOuter | DigitRecognition/Models/Vector.swift:257-270 | vDSP_mmul with p = 1 is the outer product a ⊗ b |
| LinAlgSpec.ProductRowsAt | DigitRecognition/Models/Matrix.swift:115-128 | entry j of row i of A * B is row i of A dotted with column j of B |
| LinAlgSpec.OuterAt | DigitRecognition/Models/Vector.swift:257-270 | the outer product has a.count * b.count entries, and entry (i, j) is a[i] * b[j] |
| LinAlgSpec.GemvAt | DigitRecognition/Models/Matrix.swift:183-196 | entry i of sgemv is alpha times row i dotted with x, plus beta times y[i] |
| LinAlgSpec.GemvIsAffine | DigitRecognition/Models/Matrix.swift:173-199 | sgemv with alpha = beta = 1 on a copy of b is W x + b |
| LinAlgSpec.GemvIsMatVec | LinearAlgebraDemo/Services/LinearAlgebra.swift:394-408 | sgemv with alpha = 1 and beta = 0 is W x, whatever y held before |
| LinAlgSpec.ThresholdZeroIsRelu | DigitRecognition/Models/Vector.swift:375-387 | vDSP_vthres at 0 gives max(0, v[i]), the ReLU the helper copy in SGDTwoHiddenLayer.swift computes |
| LinAlgSpec.RowCombinationIsVecMat | DigitRecognition/Models/MachineLearning/Models/SGDTwoHiddenLayer.swift:319-335 | accumulating u[j] * (row j of W) over all rows gives W^T u, i.e. u * W |
| LinAlgSpec.RowCombinationAt | DigitRecognition/Models/MachineLearning/Models/SGDTwoHiddenLayer.swift:326-333 | after k rows, entry i of the accumulator is the dot of u and column i up to k |
| LinAlgSpec.OuterUpdateAt | DigitRecognition/Models/MachineLearning/Models/SGDTwoHiddenLayer.swift:275-288 | the row-wise update changes weight (j, k) to w - lr * delta[j] * prev[k] |
| LinAlgSpec.OuterUpdateKeepsTail | DigitRecognition/Models/MachineLearning/Models/SGDTwoHiddenLayer.swift:275-288 | weights from delta.count * prev.count on are not touched |
| LinAlgSpec.OuterUpdateLength | DigitRecognition/Models/MachineLearning/Models/SGDTwoHiddenLayer.swift:275-288 | the row-wise update keeps the weight buffer's length |
| LinAlgSpec.OuterUpdateIsOuterStep | DigitRecognition/Models/MachineLearning/Models/SGDTwoHiddenLayer.swift:275-288 | for W exactly delta.count x prev.count, the update is W - lr * (delta ⊗ prev) |
| LinAlgSpec.PartialOuterUpdateStep | DigitRecognition/Models/MachineLearning/Models/SGDTwoHiddenLayer.swift:283-287 | one loop pass (scale prev by delta[j], add -lr times it into row j) takes the state after j rows to the state after j + 1 |
| LinAlgSpec.PartialOuterUpdateEnd | DigitRecognition/Models/MachineLearning/Models/SGDTwoHiddenLayer.swift:283-287 | after delta.count passes the loop has computed the whole row-wise update |
| LinAlgSpec.ScaledRowStep | DigitRecognition/Models/MachineLearning/Models/SGDTwoHiddenLayer.swift:285-286 | (prev * d) * -lr added to a row is row - lr * d * prev |
| LinAlgSpec.AxpyIntoIsDescend | DigitRecognition/Models/MachineLearning/Models/SGDTwoHiddenLayer.swift:250-251 | vsma of delta with -lr into b's buffer is b - lr * delta on the first delta.count entries |
| LinAlgSpec.AxpyIntoZero | DigitRecognition/Models/Vector.swift:342-355 | multiplied(by: 0, plus:) leaves every entry of the target as it was |
| LinAlgSpec.DescendIsStep | DigitRecognition/Models/MachineLearning/Models/SGDTwoHiddenLayer.swift:250-261 | with delta as long as b, the bias step is b + (-lr) * delta |
| LinAlgSpec.PlusCommutes | DigitRecognition/Models/Vector.swift:115-130 | vector addition is symmetric |
| Kernels.RowColDot | DigitRecognition/Models/Matrix.swift:115-128 | the inner loop of vDSP_mmul returns row i of A dotted with column j of B |
| Kernels.Mmul | DigitRecognition/Models/Matrix.swift:115-128 | vDSP_mmul writes C := A (m x p) * B (p x n), and only C |
| Kernels.EntryValue | DigitRecognition/Models/Matrix.swift:115-128 | entry (i, j) of the spec product is the row-column dot the kernel computes |
| Kernels.Gemv | DigitRecognition/Models/Matrix.swift:183-196 | cblas_sgemv (row-major, no transpose, lda = n) writes y := alpha * A x + beta * y |
| Kernels.RowDot | DigitRecognition/Models/Matrix.swift:183-196 | the inner loop of sgemv returns row i of A dotted with x |
| Kernels.Vadd | LinearAlgebraDemo/Services/LinearAlgebra.swift:410 | vDSP_vadd writes C := A + B, and C may be one of its inputs |
| Kernels.Vsub | LinearAlgebraDemo/Services/LinearAlgebra.swift:450 | vDSP_vsub(B, A, C) writes C := A - B, subtrahend first |
| Kernels.Vsmul | LinearAlgebraDemo/Services/LinearAlgebra.swift:461-462 | vDSP_vsmul writes C := A * s |
| Kernels.Vsma | DigitRecognition/Models/Vector.swift:327-336 | vDSP_vsma into a separate D writes D := A * s + C |
| Kernels.VsmaInPlace | DigitRecognition/Models/Vector.swift:345-354 | vDSP_vsma with C = D = t + off writes t[off + k] := a[k] * s + t[off + k], and keeps every other entry of t |
| Kernels.Vmul | DigitRecognition/Models/Vector.swift:360-368 | vDSP_vmul writes C := A ⊙ B, and C may be A |
| Kernels.Vthres | DigitRecognition/Models/Vector.swift:378-385 | vDSP_vthres at 0 keeps the entries at or above 0 and zeroes the rest |
| Kernels.Maxv | DigitRecognition/Models/Vector.swift:273-277 | vDSP_maxv returns an entry of the vector that no entry exceeds |
| Kernels.Maxvi | DigitRecognition/Models/Vector.swift:280-285 | vDSP_maxvi returns the maximum and the first index holding it |
| Kernels.Sve | DigitRecognition/Models/Vector.swift:288-292 | vDSP_sve returns the sum of the entries |
| Buffers.Vector.constructor | DigitRecognition/Models/Vector.swift:22-29 | the buffer holds the given elements, in order, and is a fresh buffer |
| Buffers.Vector.Copy | DigitRecognition/Models/Vector.swift:31-36 | a fresh buffer holding a copy of the other vector's elements |
| Buffers.Vector.Repeating | DigitRecognition/Models/Vector.swift:38-43 | count copies of the value |
| Buffers.Vector.Set | DigitRecognition/Models/Vector.swift:72-75 | the setter changes exactly one entry |
| Buffers.Vector.Equals | DigitRecognition/Models/Vector.swift:62-67 | == is true iff both vectors have the same elements, in order (so equal counts too) |
| Buffers.Matrix.constructor | DigitRecognition/Models/Matrix.swift:43-53 | for rows * cols == elements.count, a rows x cols matrix holding the elements |
| Buffers.Matrix.Repeating | DigitRecognition/Models/Matrix.swift:55-63 | rows * cols copies of the value |
| Buffers.Matrix.FromRows | DigitRecognition/Models/Matrix.swift:26-41 | under the initialiser's own check, one row per element, cols from the first row, the rows concatenated in order |
| Buffers.RaggedRowsPassGuard | DigitRecognition/Models/Matrix.swift:26-41 | rows of lengths 2, 1, 3 pass the check, though ragged, and entry (2, 0) is not the third row's first element |
| Buffers.RectangularRowsAt | DigitRecognition/Models/Matrix.swift:26-41 | rows all as long as the first pass the check, and entry (i, j) is elements[i][j] |
| Buffers.Matrix.Set | DigitRecognition/Models/Matrix.swift:91-94 | the setter changes exactly one entry of the flat buffer |
| Buffers.Matrix.Equals | DigitRecognition/Models/Matrix.swift:239-245 | == is true iff both shapes and all elements agree |
| Buffers.VectorIterator.Next | DigitRecognition/Models/Vector.swift:551-555 | the next element and one step on, or nil with no step past the end |
| Buffers.Collect | DigitRecognition/Models/Vector.swift:538-557 | iterating a vector to nil yields exactly its elements, in order |
| VectorOps.TimesMatrix | DigitRecognition/Models/Vector.swift:82-95 | v * M is a fresh vector of M.cols entries, entry j the dot of v and column j |
| VectorOps.Scaled | DigitRecognition/Models/Vector.swift:98-113 | v * s is a fresh vector, every entry times s |
| VectorOps.Add | DigitRecognition/Models/Vector.swift:115-130 | lhs + rhs, entry by entry, in a fresh vector |
| VectorOps.Subtract | DigitRecognition/Models/Vector.swift:132-147 | lhs - rhs, entry by entry, in a fresh vector |
| VectorOps.InnerProduct | DigitRecognition/Models/Vector.swift:241-254 | the sum of a[i] * b[i] |
| VectorOps.OuterProduct | DigitRecognition/Models/Vector.swift:257-270 | a count x count matrix whose entry (i, j) is a[i] * b[j] |
| VectorOps.Max | DigitRecognition/Models/Vector.swift:273-277 | an entry of v that no entry exceeds |
| VectorOps.MaxValueAndIndex | DigitRecognition/Models/Vector.swift:280-285 | the maximum, and the first index holding it |
| VectorOps.Sum | DigitRecognition/Models/Vector.swift:288-292 | the sum of the entries |
| VectorOps.Softmax | DigitRecognition/Models/Vector.swift:295-318 | a fresh vector of the same count, holding the softmax map of the entries |
| VectorOps.MultipliedPlus | DigitRecognition/Models/Vector.swift:321-339 | v * s + c in a fresh vector; c itself is left alone |
| VectorOps.MultipliedPlusInto | DigitRecognition/Models/Vector.swift:342-355 | v.count entries from the pointer become v * s plus their old values; the rest of the buffer is kept |
| VectorOps.FormMultiplyInPlace | DigitRecognition/Models/Vector.swift:358-369 | self becomes self ⊙ other, in place (self squared when other is self) |
| VectorOps.Relu | DigitRecognition/Models/Vector.swift:375-387 | a fresh vector of max(0, v[i]) |
| VectorOps.ReluPrime | DigitRecognition/Models/Vector.swift:399-403 | a fresh vector: 1 where v[i] > 0, else 0 |
| MatrixOps.TimesVector | DigitRecognition/Models/Matrix.swift:100-113 | M * v is a fresh vector of M.rows entries, entry i the dot of row i and v |
| MatrixOps.TimesMatrix | DigitRecognition/Models/Matrix.swift:115-128 | A * B is a fresh A.rows x B.cols matrix of row-by-column dots |
| MatrixOps.MultipliedPlus | DigitRecognition/Models/Matrix.swift:173-199 | W x + b in a fresh vector; b is not changed |
| RowLoops.AddScaledRow | DigitRecognition/Models/MachineLearning/Models/SGDTwoHiddenLayer.swift:284-286 | one pass of a weight-row loop takes the weights after j rows to the weights after j + 1 |
| TwoHiddenLayer.PredictIsTrainingOutput | DigitRecognition/Models/MachineLearning/Models/SGDTwoHiddenLayer.swift:227-269 | inference returns the y that train computes from the same parameters, with one entry per output |
| TwoHiddenLayer.DeltasMasked | DigitRecognition/Models/MachineLearning/Models/SGDTwoHiddenLayer.swift:239-245 | each delta has its layer's size, and a hidden delta is 0 wherever its pre-activation is not positive |
| TwoHiddenLayer.StepFits | DigitRecognition/Models/MachineLearning/Models/SGDTwoHiddenLayer.swift:247-262 | a training step keeps every parameter's shape |
| TwoHiddenLayer.StepIsGradientDescent | DigitRecognition/Models/MachineLearning/Models/SGDTwoHiddenLayer.swift:247-262 | each W_l moves by -lr (delta_l ⊗ a_(l-1)), and each b_l by -lr delta_l |
| TwoHiddenLayer.TransposeMultiply | DigitRecognition/Models/MachineLearning/Models/SGDTwoHiddenLayer.swift:319-335 | a fresh vector of W.cols entries equal to W^T u, i.e. u * W |
| TwoHiddenLayer.AccumulateRow | DigitRecognition/Models/MachineLearning/Models/SGDTwoHiddenLayer.swift:330-332 | v[i] += scale * w[rowStart + i] for every i of v |
| TwoHiddenLayer.RowWiseUpdate | DigitRecognition/Models/MachineLearning/Models/SGDTwoHiddenLayer.swift:275-288 | the weights become the row-wise update; OuterUpdateAt and OuterUpdateKeepsTail say what that is entry by entry |
| TwoHiddenLayer.UpdateLayer | DigitRecognition/Models/MachineLearning/Models/SGDTwoHiddenLayer.swift:248-251 | one layer's weight update and bias step, in that order |
| TwoHiddenLayer.SGDTwoHiddenLayer.constructor | DigitRecognition/Models/MachineLearning/Models/SGDTwoHiddenLayer.swift:197-220 | the given shapes and learning rate (defaults 512, 256, 0.01), the given weights, zero biases, six separate buffers |
| TwoHiddenLayer.SGDTwoHiddenLayer.Train | DigitRecognition/Models/MachineLearning/Models/SGDTwoHiddenLayer.swift:227-263 | the parameters become Step of the old parameters, and keep their shapes |
| TwoHiddenLayer.SGDTwoHiddenLayer.Gradients | DigitRecognition/Models/MachineLearning/Models/SGDTwoHiddenLayer.swift:228-245 | the activations and deltas Backprop gives, all from the parameters before any update |
| TwoHiddenLayer.SGDTwoHiddenLayer.Update | DigitRecognition/Models/MachineLearning/Models/SGDTwoHiddenLayer.swift:247-262 | the six updates, each from its own delta and input activation |
| TwoHiddenLayer.SGDTwoHiddenLayer.Forward | DigitRecognition/Models/MachineLearning/Models/SGDTwoHiddenLayer.swift:228-234 | z1 = W1 x + b1, a1 = relu z1, z2 = W2 a1 + b2, a2 = relu z2, y = softmax(W3 a2 + b3) |
| TwoHiddenLayer.SGDTwoHiddenLayer.Backward | DigitRecognition/Models/MachineLearning/Models/SGDTwoHiddenLayer.swift:236-245 | delta3 = y - t; delta2 = (W3^T delta3) ⊙ relu'(z2); delta1 = (W2^T delta2) ⊙ relu'(z1) |
| TwoHiddenLayer.SGDTwoHiddenLayer.Inference | DigitRecognition/Models/MachineLearning/Models/SGDTwoHiddenLayer.swift:265-269 | the network's output on x, with no parameter changed |
| SingleLayer.Predict | LinearAlgebraDemo/Services/MachineLearning/Models/SGDSingleLayer.swift:64-66 | softmax(W x + b) has one entry per row of W |
| SingleLayer.StepIsGradientDescent | LinearAlgebraDemo/Services/MachineLearning/Models/SGDSingleLayer.swift:29-62 | a step keeps both shapes, moves W by -lr (error ⊗ x) and b by -lr error |
| SingleLayer.SGDSingleLayer.constructor | LinearAlgebraDemo/Services/MachineLearning/Models/SGDSingleLayer.swift:20-25 | W is inputCount x outputCount of 0.01, b is inputCount zeros, learning rate 0.01 |
| SingleLayer.SGDSingleLayer.Train | LinearAlgebraDemo/Services/MachineLearning/Models/SGDSingleLayer.swift:29-62 | the parameters become Step of the old parameters |
| SingleLayer.SGDSingleLayer.ComputeError | LinearAlgebraDemo/Services/MachineLearning/Models/SGDSingleLayer.swift:38-44 | error = softmax(W x + b) - t, a fresh vector of W.rows entries |
| SingleLayer.SGDSingleLayer.UpdateWeights | LinearAlgebraDemo/Services/MachineLearning/Models/SGDSingleLayer.swift:50-58 | row i of W gets -lr * x * error[i] for each i < error.count |
| SingleLayer.SGDSingleLayer.UpdateBias | LinearAlgebraDemo/Services/MachineLearning/Models/SGDSingleLayer.swift:61 | b becomes b - lr * error |
| SingleLayer.SGDSingleLayer.Inference | LinearAlgebraDemo/Services/MachineLearning/Models/SGDSingleLayer.swift:64-66 | softmax(W x + b), with no parameter changed |
| LinearAlgebra.ComputeLogits | LinearAlgebraDemo/Services/LinearAlgebra.swift:425-443 | y zeroed, sgemv with beta 0, then vadd: W x + b for numClasses classes |
| LinearAlgebra.Test | LinearAlgebraDemo/Services/LinearAlgebra.swift:384-413 | softmax(W x + b) over w.rows classes, a fresh vector; w and b are only read |
| LinearAlgebra.TrainStep | LinearAlgebraDemo/Services/LinearAlgebra.swift:415-481 | w becomes the row-wise update with the error and x; b gets its first t.count entries stepped |
| LinearAlgebra.ComputeError | LinearAlgebraDemo/Services/LinearAlgebra.swift:425-450 | error = softmax(W x + b) - t, a fresh vector of t.count entries |
| LinearAlgebra.UpdateWeights | LinearAlgebraDemo/Services/LinearAlgebra.swift:456-476 | for each class i, row i of w gets -lr * error[i] * x |
| LinearAlgebra.UpdateBias | LinearAlgebraDemo/Services/LinearAlgebra.swift:479-480 | b becomes b - lr * error on its first error.count entries |
| MachineLearningModel.FirstMaxIsFirstMaximum | DigitRecognition/Models/MachineLearning/MachineLearningModel.swift:30-32 | the chosen position holds a maximum, and every earlier entry is strictly smaller |
| MachineLearningModel.FirstMaxUnique | DigitRecognition/Models/MachineLearning/MachineLearningModel.swift:30-32 | only one position is a maximum with every earlier entry smaller |
| MachineLearningModel.Category | DigitRecognition/Models/MachineLearning/MachineLearningModel.swift:30-32 | category(of:) is the first position of the largest entry |
| IDX.FromRawValue | LinearAlgebraDemo/Services/IDXSequence.swift:124-131 | a case read from a byte has that byte as its raw value |
| IDX.RawValueRoundTrip | LinearAlgebraDemo/Services/IDXSequence.swift:124-131 | every case reads back from its raw value, and exactly 0x08, 0x09 and 0x0B to 0x0E name a case |
| IDX.BigEndian | LinearAlgebraDemo/Services/IDXSequence.swift:107 | four bytes, most significant first, give a number below 2^32 |
| IDX.DecodeEncode | LinearAlgebraDemo/Services/IDXSequence.swift:97-108 | a 32-bit number written as four bytes reads back as itself |
| IDX.EncodeDecode | LinearAlgebraDemo/Services/IDXSequence.swift:97-108 | every four bytes are the encoding of the number they read as |
| IDX.ReadUInt32RoundTrip | LinearAlgebraDemo/Services/IDXSequence.swift:97-108 | reading a written number consumes exactly its four bytes |
| IDX.ReadBytesSplits | LinearAlgebraDemo/Services/IDXSequence.swift:76-85 | a read succeeds iff enough bytes remain; when it does, the item and what remains make up the bytes, in order |
| IDX.HeaderShape | LinearAlgebraDemo/Services/IDXSequence.swift:23-56 | a decoded header read 4 + 4 * rank bytes; counts holds the rank then the rank - 1 sizes; countPerItem is their product (1 for rank 1) |
| IDX.HeaderFailure | LinearAlgebraDemo/Services/IDXSequence.swift:23-56 | a header fails iff the bytes run out (fewer than 8 bytes, or fewer than the rank's sizes need) or the type byte names no type |
| IDX.RankZeroShortHeader | LinearAlgebraDemo/Services/IDXSequence.swift:33-41 | a header with a valid type byte and rank 0 that ends before its item count is admitted and fails with missingHeader, as the count read throws |
| IDX.SizesOfEncoded | LinearAlgebraDemo/Services/IDXSequence.swift:43-47 | sizes written one after another are read back, whatever follows them |
| IDX.ParseEncodedHeader | LinearAlgebraDemo/Services/IDXSequence.swift:23-56 | a written header decodes to its type, count, rank and sizes, with the product of the sizes per item, and leaves exactly the bytes after it |
| IDX.NextIsFirstRecord | LinearAlgebraDemo/Services/IDXSequence.swift:65-74 | next() returns nil iff no records remain; otherwise it returns the first record and leaves the rest |
| IDX.RecordCount | LinearAlgebraDemo/Services/IDXSequence.swift:65-74 | the iterator yields min(image bytes / image item size, label bytes / label item size) records |
| IDX.RecordCountEmptyImages | LinearAlgebraDemo/Services/IDXSequence.swift:65-74 | with image items of 0 bytes, records are yielded until the labels run short: labels byte count / q of them |
| IDX.RecordCountEmptyLabels | LinearAlgebraDemo/Services/IDXSequence.swift:65-74 | with label items of 0 bytes, records are yielded until the images run short: images byte count / p of them |
| IDX.RecordAt | LinearAlgebraDemo/Services/IDXSequence.swift:65-74 | record k holds image bytes [k p, k p + p) and label bytes [k q, k q + q) |
| IDX.ByteStream.Next | LinearAlgebraDemo/Services/IDXSequence.swift:24-25 | the next byte and one step on, or nil with no step once the bytes run out |
| IDX.ReadUInt32 | LinearAlgebraDemo/Services/IDXSequence.swift:97-108 | four next() calls read as one big-endian number; missingHeader, with nothing left, when the bytes run out |
| IDX.ReadBytes | LinearAlgebraDemo/Services/IDXSequence.swift:76-85 | count bytes in order, or nil as soon as one next() is empty |
| IDX.ReadTypeAndRank | LinearAlgebraDemo/Services/IDXSequence.swift:24-36 | two bytes skipped, a type byte that must name a type, then the rank byte; each failure is missingHeader |
| IDX.ReadSizes | LinearAlgebraDemo/Services/IDXSequence.swift:38-47 | rank - 1 sizes, their product as countPerItem, or missingHeader when the bytes run out |
| IDX.ReadHeader | LinearAlgebraDemo/Services/IDXSequence.swift:23-56 | the header and the bytes left are exactly what ParseHeader gives |
| IDX.RecordIterator.Next | LinearAlgebraDemo/Services/IDXSequence.swift:65-74 | the image item first, then the label item; nil when either read is short, with the image item gone even when the label read fails |
| IDX.Open | LinearAlgebraDemo/Services/IDXSequence.swift:16-21 | fails iff either header fails; otherwise an iterator over both files, just past their headers |
| IDX.ReadAll | LinearAlgebraDemo/Services/IDXSequence.swift:65-74 | calling next() until nil yields exactly the records Records describes |
| IDX.ReadDataset | LinearAlgebraDemo/Services/IDXSequence.swift:16-21 | opening both files and draining the iterator gives DecodeFiles |
| IDX.EncodedFilesDecode | LinearAlgebraDemo/Services/IDXSequence.swift:16-74 | two written files decode to the records of their payloads |
| WorkedExamples.InnerProductExample | DigitRecognitionTests/DigitRecognitionTests.swift:66-73 | [1, 2, 3] · [5, 6, 7] is 5 + 12 + 21 |
| WorkedExamples.MatrixTimesVectorExample | DigitRecognitionTests/DigitRecognitionTests.swift:14-26 | [[1, 4], [2, 5], [3, 6]] * [1, 2] is [9, 12, 15] |
| WorkedExamples.VectorTimesMatrixExample | DigitRecognitionTests/DigitRecognitionTests.swift:28-39 | [1, 2, 3] * [[1, 4], [2, 5], [3, 6]] is [14, 32] |
| WorkedExamples.MatrixTimesMatrixExample | DigitRecognitionTests/DigitRecognitionTests.swift:41-58 | [[1, 2, 3], [4, 5, 6]] * [[1, 4], [2, 5], [3, 6]] is [[14, 32], [32, 77]] |
| WorkedExamples.OuterProductExample | DigitRecognitionTests/DigitRecognitionTests.swift:241-252 | [1, 2] ⊗ [3, 4] is [[3, 4], [6, 8]] |
| WorkedExamples.FlattenExample | DigitRecognitionTests/DigitRecognitionTests.swift:291-303 | the rows [1, 2], [3, 4] flatten to the elements [1, 2, 3, 4] |
| WorkedExamples.NestedEqualsFlatExample | DigitRecognitionTests/DigitRecognitionTests.swift:291-303 | the matrix built from the nested literal [[1, 2], [3, 4]] and the one built from elements [1, 2, 3, 4] with 2 rows and 2 columns compare equal under == |
| WorkedExamples.FirstMaxExample | DigitRecognitionTests/DigitRecognitionTests.swift:60-64 | the largest entry of [1, 7, 3] is at position 1 |
| WorkedExamples.MaxExample | DigitRecognitionTests/DigitRecognitionTests.swift:60-64 | max() of the vector [1, 7, 3] is 7 |

## Left out

- Floating point: all arithmetic is on reals, so Float rounding, NaN and infinities are not modelled.
- softmax: the exponential, shift and normalisation (Vector.swift:295-318) are not modelled; the model keeps only that the result has the input's length.
- unitVector, heStd and `Float.random` are not modelled. The random He-scaled initial weights of SGDTwoHiddenLayer are constructor parameters.
- The `description` string conversions are not modelled: they are formatting only.
- The `Double` overloads are not modelled. They are the `Float` code on another element type.
- LinearAlgebraDemo's `SGDSingleLayer.swift` calls four operations that LinearAlgebraDemo's own `Vector`/`Matrix` copy (`LinearAlgebra.swift:11-332`) does not define: `w.multipliedBy(x, plus: b)` (lines 38 and 65), `y - t` (line 44), `x * error[i]` (line 54), and the pointer form `multiplied(by:plus:)` (lines 57 and 61). The first is defined in neither app; DigitRecognition's closest operation is `multiplied(by:plus:)`. The model of `SingleLayer` gives these calls the meaning of DigitRecognition's definitions. Those are `Matrix.multiplied(by:plus:)` (`DigitRecognition/Models/Matrix.swift:173-199`, as `MatrixOps.MultipliedPlus`), `*` and `-` (`DigitRecognition/Models/Vector.swift:98-147`, as `VectorOps.Scaled` and `VectorOps.Subtract`), and the pointer `multiplied(by:plus:)` (`DigitRecognition/Models/Vector.swift:342-355`, as `VectorOps.MultipliedPlusInto`). That LinearAlgebraDemo, as written, lacks these four names is not modelled.
- The second copy of Vector and Matrix in LinearAlgebra.swift is not modelled separately.
- The MachineLearningModel protocol, its global actor and `Sendable` are not modelled: they concern concurrency only.
- Buffer allocation and `deinit` are not modelled.
- Unsafe pointers are not modelled as such. Each pointer into a buffer becomes an (array, offset) pair.
- Aliasing: operations whose source output overlaps an input only as the routine documents it (vadd, vmul, vsma in place) allow that overlap; all other buffers are required to be distinct. The source does not state which aliasing it tolerates.
- Kernels: each Accelerate routine is modelled by its documented result at unit stride. Accelerate's own implementation is not part of this model.
- VectorOps.Max: requires a non-empty vector. vDSP_maxv on an empty one returns -infinity, which reals cannot hold.
- VectorOps.MaxValueAndIndex: requires a non-empty vector, for the same reason.
- MachineLearningModel.Category: requires a non-empty vector, for the same reason.
- SingleLayer.SGDSingleLayer.constructor: follows the source's shapes. W has inputCount rows and b inputCount entries, so inputCount is really the number of classes.
- IDX.ReadHeader: requires a non-zero rank byte when a valid type byte and a whole item count precede the size loop. There, with rank 0, the source's range `1..<0` traps; RankNonZero excludes exactly those inputs. A rank-0 header that ends before its item count is complete is admitted, and it fails with missingHeader as the count read does in the source.
- IDX.ReadSizes: Int overflow of countPerItem and the UInt32-to-Int conversion are not modelled; sizes are unbounded naturals.
- IDX.ReadAll: requires a non-zero item size in at least one file. With both sizes 0, next() never returns nil and the sequence never ends.
- IDX.BigEndian: the source's shift-and-or on UInt32 is modelled as the base-256 sum, which it equals for bytes.
- IDXSequence is one class in the source and also hands out a copy of its iterators in `makeAsyncIterator()`. Here the header reading is `IDX.Open` and the iteration is `IDX.RecordIterator`. No two iterators share a stream.
- I/O: URL.AsyncBytes, await and thrown I/O errors are not modelled. A file is its list of bytes, and the end of the bytes is the only way a read fails.
- The other IDXSequence.swift, under DigitRecognition/Models/IDX file format, is not part of this model.
- The app's views, view models, drawing code and data loading are not part of this model.

## Findings

| source | as written | input that shows it | evidently intended | confidence | as-written member | corrected member |
|---|---|---|---|---|---|---|
| DigitRecognition/Models/Matrix.swift:26-41 | the check (the array literal at lines 65-80 and the copy in LinearAlgebraDemo/Services/LinearAlgebra.swift:16-31 repeat it) "All rows must have same number of columns" only compares the flattened length with rows * (first row's length) | `[[1, 2], [3], [4, 5, 6]]` passes the check and builds a 3 x 2 matrix whose entry (2, 0) is 5, not 4 | every row the same length as the first, so entry (i, j) is elements[i][j] | not executed | Buffers.RaggedRowsPassGuard (with Buffers.Matrix.FromRows, which keeps the as-written check) | Buffers.RectangularRowsAt |
