# SimpleNet anomaly scoring, modelled in Dafny

This project models the anomaly-scoring core of `simplenet_vit.py`, a
SimpleNet-style detector on a ViT backbone. It covers these pieces:

- **PatchMaker.** Cutting a (B, C, H, W) feature map into overlapping k-by-k patches (`patchify`). Reshaping the flat per-patch scores back per image (`unpatch_scores`). Reducing them to one score per image (`score`).
- **The shape pipeline of `_embed`.**
  - Token sequences (B, L, C) become square maps.
  - Every layer is patchified.
  - Every later layer is aligned onto the first layer's patch grid: split the grid, move it to the back, resample, move it to the front, merge.
  - Then every layer is flattened and pooled to the pretrain dimension and to the target dimension. `_embed` does this through `common.Preprocessing` and `common.Aggregator`. The `common` module is not part of this model; the in-file `MeanMapperad`, `Preprocessingad` and `Aggregatorad` (simplenet_vit.py:208-247) stand in for them.
- **`adaptive_avg_pool1d` at the value level.** Window boundaries, range preservation, identity when the output length is the input length.
- **The Discriminator's Linear width chain.**
- **The discriminator training step's arithmetic.**
  - Mixture noise: one component picked per sample, with each component's std 1.1 times the previous one.
  - The true/fake split of the scores.
  - The hinge loss with margin `th`.
  - The `p_true`/`p_fake` diagnostics.
- **Best-record selection across meta-epochs,** and which checkpoint keys are written.
- **Min-max normalisation of the evaluation scores.** Image scores by their range. Segmentation maps by every image's (min, max) pair, with a floor of 0.01 on the range.

Conventions:

- Feature values and scores are `real`, and shapes are `nat`.
- Tensors are nested sequences.
- A runtime error raised by torch or numpy (Unfold rejecting a map, a reshape mismatch, a max over an empty axis, `topk` with k larger than the axis) is a `Result.Err`, not a precondition.
- `real` has no NaN. Where torch or numpy would compute 0/0 and carry on with NaN (a mean over an empty half of the scores, an image-score range of 0, which includes a single test image), the model returns `Result.Err` instead; "## Left out" names each member where this happens.
- Learned weights, the backbone and random numbers are inputs: the noise samples and the component indices are parameters.

Modules, one per file:

- `Results`: the Result and Option types.
- `Arith`: integer facts, including `ISqrt`, which stands for `int(math.sqrt(n))`.
- `Seqs`: sums, means, min/max, flatten/chunk.
- `Tensors`: nested sequences and zero padding.
- `Shapes`: torch's `reshape`, `permute`, `unsqueeze`, `squeeze` and `interpolate` on shapes.
- `PatchMaker`, `TopK`, `Scoring`, `Alignment`, `Pooling`, `Embed`, `Discriminator`, `Training`, `Selection`, `Normalisation`.

## Model

| member | source | states |
|---|---|---|
| PatchMaker.Padding | simplenet_vit.py:1258 | for a patch size k >= 1 the padding is (k-1)/2 rounded down, which is what `int` does to a non-negative float |
| PatchMaker.GridCountMatchesUnfold | simplenet_vit.py:1259-1268 | whenever Unfold accepts a side, the patch count `patchify` reports equals the number of columns Unfold produces, (s + 2p - k)/stride + 1 |
| PatchMaker.GridCountOddKernel | simplenet_vit.py:1258-1268 | with an odd patch size every non-empty side is accepted and has (s-1)/stride + 1 patches, so stride 1 keeps the map's size |
| PatchMaker.DocstringCountDiffers | simplenet_vit.py:1251-1257 | the docstring's `w//stride` is not the count: a side of 5 with k = 3 and stride 2 gives 3 patches, while 5//2 is 2 |
| PatchMaker.Unfold | simplenet_vit.py:1259-1262 | Unfold turns (B, C, H, W) into (B, C*k*k, n_h*n_w) |
| PatchMaker.Patchify | simplenet_vit.py:1250-1276 | succeeds exactly when Unfold accepts the map and the batch is non-empty (an empty batch passes Unfold but its `reshape(B, C, k, k, -1)` fails); returns the per-side counts (both >= 1) and a (B, n_h*n_w, C, k, k) tensor |
| PatchMaker.PatchifyAt | simplenet_vit.py:1259-1272 | entry (c, i, j) of patch (row, col) of image b is the zero-padded input pixel at (row*stride + i - p, col*stride + j - p) |
| PatchMaker.UnpatchScores | simplenet_vit.py:1278-1279 | succeeds exactly when batchsize > 0 divides the number of scores; gives batchsize rows of equal length |
| PatchMaker.UnpatchAt | simplenet_vit.py:1278-1279 | row b, column l holds score b*L + l, where L is the row length |
| PatchMaker.UnpatchFlatten | simplenet_vit.py:1278-1279 | concatenating the rows gives back the original scores |
| PatchMaker.UnpatchOfFlatten | simplenet_vit.py:1278-1279 | unpatching concatenated equal rows gives back those rows |
| Scoring.MaxLeafIsMax | simplenet_vit.py:1286-1287 | the value kept by the max reductions is one of the entries, and no entry exceeds it |
| Scoring.ReduceLast | simplenet_vit.py:1287 | one `torch.max(x, dim=-1)` drops the last axis of the shape |
| Scoring.ReduceLastKeepsMax | simplenet_vit.py:1287 | dropping the last axis by max keeps the overall maximum unchanged |
| Scoring.ReduceTrailing | simplenet_vit.py:1286-1287 | the loop succeeds exactly when every axis beyond the first two is non-empty, and leaves the first two axes |
| Scoring.ReduceTrailingCell | simplenet_vit.py:1286-1287 | after the loop, cell (b, l) is the maximum over everything that was under that cell |
| Scoring.Score | simplenet_vit.py:1281-1295 | below rank 2 the input comes back unchanged; from rank 2 it succeeds exactly when the trailing axes are non-empty and the patch axis has at least `top_k` entries (at least one when `top_k <= 1`), giving one value per image |
| Scoring.ScoreIs | simplenet_vit.py:1286-1292 | with `top_k <= 1` an image's value is the maximum over all its entries; with `top_k > 1` it is the mean of the `top_k` largest cell maxima, which lies between their minimum and maximum |
| Scoring.ImageScores | simplenet_vit.py:1164-1172 | the image-score path succeeds exactly when batchsize > 0 divides the outputs and each image has enough patches for `top_k`; one score per image |
| Scoring.DefaultImageScore | simplenet_vit.py:1164-1172 | with `top_k <= 1`, image b's score is the largest negated discriminator output among its own patches b*L .. b*L+L-1 |
| Scoring.PatchScoreMaps | simplenet_vit.py:1164-1177 | the patch-score path succeeds exactly when there are batchsize*h*w outputs; gives batchsize h-by-w maps |
| Scoring.PatchScoreMapAt | simplenet_vit.py:1174-1177 | map b at (row, col) holds the negated output number b*h*w + row*w + col |
| TopK.SortDesc | simplenet_vit.py:1290 | a descending rearrangement of exactly the row's entries |
| TopK.SortedUnique | simplenet_vit.py:1290 | two descending sequences with the same entries are equal, so the top-k values are determined by the row |
| TopK.TopKValues | simplenet_vit.py:1290 | k values in descending order, taken from the row's entries (as a sub-multiset) |
| TopK.TopKSelectsLargest | simplenet_vit.py:1290 | every entry left out is at most the smallest one selected |
| TopK.TopKValuesFromRow | simplenet_vit.py:1290 | every selected value occurs in the row |
| TopK.TopKMeanWithinRow | simplenet_vit.py:1290 | the mean of the top k lies between the row's minimum and maximum |
| TopK.TopKOneIsMax | simplenet_vit.py:1289-1292 | the top-1 mean is the row maximum, so the two branches agree at the boundary k = 1 |
| TopK.TopKOrderInvariant | simplenet_vit.py:1290 | the top-k mean depends only on the row's entries, not their order |
| Arith.ISqrt | simplenet_vit.py:432 | `int(math.sqrt(L))` is the largest s with s*s <= L |
| Arith.ISqrtExact | simplenet_vit.py:432 | on a perfect square r*r the side is exactly r |
| Shapes.Reshape | simplenet_vit.py:447-470 | a reshape with at most one -1 succeeds exactly when the sizes account for every element; the result has the same element count and keeps every given size |
| Shapes.ReshapeExact | simplenet_vit.py:432 | a reshape to fully given sizes with the right element count yields those sizes |
| Shapes.ReshapeInferred | simplenet_vit.py:454 | a reshape with one -1 yields the unique size that completes the element count |
| Shapes.Permute | simplenet_vit.py:451 | a permutation, negative dims counted from the end, succeeds exactly when it names every axis once; axis i of the result is the named input axis |
| Shapes.Unsqueeze | simplenet_vit.py:457 | inserts an axis of size 1, keeps the others in order, and keeps the element count |
| Shapes.Squeeze | simplenet_vit.py:462 | removes the axis only when its size is 1, otherwise changes nothing, and always keeps the element count |
| Shapes.SqueezeUnsqueeze | simplenet_vit.py:457-462 | squeezing the axis that unsqueeze inserted gives back the original shape |
| Shapes.Interpolate | simplenet_vit.py:456-461 | bilinear resizing succeeds exactly on a rank-4 input with a non-empty channel axis, non-empty spatial sizes and positive targets (only the batch may be empty); it replaces the spatial sizes by the targets |
| Shapes.ToFrontPermutation | simplenet_vit.py:451 | permute(0, -3, -2, -1, 1, 2) moves the grid axes 1, 2 behind the patch axes |
| Shapes.ToBackPermutation | simplenet_vit.py:466 | permute(0, -2, -1, 1, 2, 3) moves the last two axes to positions 1, 2 |
| Shapes.AlignPermutationsInverse | simplenet_vit.py:451-466 | the second permutation undoes the first on every rank-6 shape |
| Alignment.TokensToMap | simplenet_vit.py:429-432 | a (B, L, C) token tensor becomes a (B, C, s, s) map exactly when L = s*s for s = int(sqrt(L)), or the tensor is empty |
| Alignment.TokensToMapAt | simplenet_vit.py:432 | map entry (b, c, i, j) is token i*s + j of image b, channel c |
| Alignment.TokenInMap | simplenet_vit.py:432 | every token l lands at (l / s, l % s), so no token is lost or duplicated |
| Alignment.TokenReshape | simplenet_vit.py:432 | the reshape to (B, s, s, C) succeeds exactly when the tokens fit a square |
| Alignment.ChannelsFirst | simplenet_vit.py:432 | permute(0, 3, 1, 2) moves channels in front of the grid |
| Alignment.LayerMapShape | simplenet_vit.py:429-432 | non-token layers pass unchanged; a token layer becomes (B, C, s, s) exactly when its tokens fit a square |
| Alignment.PatchifyShape | simplenet_vit.py:434-440 | a layer's patch shape exists exactly when it is a rank-4 map with a non-empty batch that Unfold accepts; it is (B, n_h*n_w, C, k, k) with both counts >= 1 |
| Alignment.PatchifyReshape | simplenet_vit.py:1269-1271 | the `reshape(B, C, k, k, -1)` after Unfold succeeds exactly for a non-empty batch, and then gives (B, C, k, k, L) |
| Alignment.PatchifyShapeAgrees | simplenet_vit.py:434-440 | the shape-level patchify succeeds together with the value-level one, and their grids and result shapes agree |
| Alignment.GridToBack | simplenet_vit.py:447-451 | splitting the patch axis into the layer's grid and moving it to the back gives (B, C, k, k, g_h, g_w), and succeeds whenever the patch axis is the grid's size |
| Alignment.Resample | simplenet_vit.py:453-465 | resampling succeeds exactly when both the layer's grid and the reference grid are non-empty, and then replaces the last two sizes by the reference grid |
| Alignment.GridToFront | simplenet_vit.py:466-467 | moving the grid back in front and merging it succeeds exactly when the batch, channel and patch sizes are non-empty, and gives one patch axis of r_h*r_w |
| Alignment.AlignShape | simplenet_vit.py:442-468 | an aligned layer has the reference grid's patch count and keeps its batch, channel and patch sizes |
| Alignment.AlignShapeOk | simplenet_vit.py:442-468 | with non-empty sizes, a (B, g_h*g_w, C, k, k) layer always aligns to (B, r_h*r_w, C, k, k) |
| Embed.MapResult | simplenet_vit.py:434-436 | applying a step to every layer succeeds exactly when it succeeds on each layer, and keeps each layer's result in place |
| Embed.FlattenPatches | simplenet_vit.py:470 | `reshape(-1, C, k, k)` merges batch and patch axes into B*P rows |
| Embed.MeanMapperShape | simplenet_vit.py:213-215 | MeanMapper maps an (N, ...) layer to (N, D), and fails on an empty batch or empty rows |
| Embed.PreprocessShape | simplenet_vit.py:229-233 | stacking the mapped layers gives (N, M, D) with M the number of layers |
| Embed.AggregateShape | simplenet_vit.py:241-247 | the aggregator maps (N, M, D) to (N, T), and succeeds whenever N > 0 and M*D > 0 |
| Embed.PatchShapes | simplenet_vit.py:426-470 | the front half of `_embed` yields one flattened patch shape per layer |
| Embed.PatchShapesOk | simplenet_vit.py:426-470 | accepted layers with batch B, whether maps or token sequences, all flatten to (B*R, C_i, k, k), C_i being the channels of layer i's map and R the first layer's grid size, and the first grid is returned |
| Embed.TokenLayerMap | simplenet_vit.py:429-432 | a (B, n*n, C) token layer becomes the map (B, C, n, n), and is accepted exactly when that map is |
| Embed.EmbedShape | simplenet_vit.py:426-478 | when `_embed` succeeds there is at least one layer, and it yields rank-2 features T wide |
| Embed.EmbedShapeOk | simplenet_vit.py:426-478 | accepted layers (maps or token sequences) with B, D, T > 0 always embed to (B*g_h*g_w, T) with the first layer's grid, whatever the later layers' grids |
| Embed.EmbedExample | simplenet_vit.py:426-478 | a token layer (4, 196, 64) and a map layer (4, 128, 7, 7) with k = 3, stride 1, D = 32, T = 16 embed to (784, 16) on a 14-by-14 grid |
| Pooling.WindowBounds | simplenet_vit.py:215 | every adaptive-pooling window is non-empty and inside the input |
| Pooling.WindowsCover | simplenet_vit.py:215 | the first window starts at 0, the last ends at L, and consecutive windows leave no gap |
| Pooling.Pool | simplenet_vit.py:215 | pooling to D outputs (D = 0 included) succeeds exactly on a non-empty input; every output lies between the input's minimum and maximum |
| Pooling.PoolIdentity | simplenet_vit.py:215 | pooling to the input's own length returns the input |
| Pooling.PoolBounded | simplenet_vit.py:215 | inputs within [lo, hi] pool to outputs within [lo, hi] |
| Pooling.MeanMapper | simplenet_vit.py:213-215 | `MeanMapperad`, for any D, succeeds exactly on a non-empty batch of non-empty rows; row n of the result is row n pooled to D |
| Pooling.MeanMapperRange | simplenet_vit.py:213-215 | each mapped value lies between its row's minimum and maximum |
| Pooling.Preprocess | simplenet_vit.py:229-233 | `Preprocessingad`, for any D, succeeds exactly when there is a layer and the layers agree on a non-empty batch of non-empty rows; entry (n, i) is layer i's row n mapped to D |
| Pooling.Aggregate | simplenet_vit.py:241-247 | `Aggregatorad`, for any T, succeeds exactly when N > 0 and M*D > 0; row n is image n's M*D values, concatenated and pooled to T |
| Pooling.EmbeddingBounded | simplenet_vit.py:213-247 | when every backbone feature lies in [lo, hi], so does every embedded feature |
| Discriminator.Shrink | simplenet_vit.py:106 | `int(h // 1.5)` is the floor of 2h/3 |
| Discriminator.Blocks | simplenet_vit.py:105-114 | the loop adds max(n_layers - 1, 0) blocks |
| Discriminator.AsWrittenChainedIff | simplenet_vit.py:102-115 | the layers as written chain (each Linear's input is the previous output, the first's is in_planes) exactly when n_layers >= 2, no hidden width is given, or hidden equals in_planes |
| Discriminator.AsWrittenMismatch | simplenet_vit.py:102-115 | in_planes 1536, n_layers 1, hidden 1024 gives an empty body and a tail expecting 1024 features |
| Discriminator.CorrectedChained | simplenet_vit.py:102-115 | with the tail sized from in_planes when the body is empty, the layers always chain |
| Discriminator.CorrectedAgrees | simplenet_vit.py:102-115 | wherever the written network chains, the corrected one is identical |
| Discriminator.SameBody | simplenet_vit.py:102-115 | the written and the corrected constructor build the same body blocks, so they can differ only in the tail's input width |
| Discriminator.WidthProfile | simplenet_vit.py:105-108 | in the written constructor and the corrected one alike, each block's output width is the floor of 2/3 of its input without hidden, and hidden otherwise |
| Training.ComponentStdIncreasing | simplenet_vit.py:1052-1054 | component 0 has std `noise_std`, and the std grows strictly with the component index |
| Training.MaskedSumPicks | simplenet_vit.py:1055 | summing a column masked by a one-hot row picks the indexed entry |
| Training.FakeFeatures | simplenet_vit.py:1050-1056 | fake features exist exactly when K > 0 and every drawn index is below K; they have the true features' shape |
| Training.FakeFeaturesAt | simplenet_vit.py:1050-1056 | fake feature (n, c) is true feature (n, c) plus sample n's noise from its own drawn component |
| Training.SingleComponent | simplenet_vit.py:1050-1056 | with `mix_noise = 1` every sample gets component 0's noise |
| Training.Split | simplenet_vit.py:1065-1067 | the true and fake halves are N long each and concatenate back to the scores |
| Training.SplitCat | simplenet_vit.py:1065-1067 | splitting the concatenation of true and fake scores returns them unchanged |
| Training.ClipZero | simplenet_vit.py:1072-1073 | the clipped value is non-negative, at least the input, and zero exactly when the input is <= 0 |
| Training.HingeLoss | simplenet_vit.py:1072-1078 | the loss exists exactly when both halves are non-empty; it is >= 0, and 0 exactly when every true score is >= th and every fake score <= -th |
| Training.CountAtLeastAll | simplenet_vit.py:1070 | all scores are counted exactly when every score is >= th |
| Training.PTrue | simplenet_vit.py:1070 | `p_true` lies in [0, 1] and is 1 exactly when every true score is >= th |
| Training.CountBelowAll | simplenet_vit.py:1071 | all scores are counted exactly when every score is below the bound, and none exactly when none is |
| Training.PFake | simplenet_vit.py:1071 | `p_fake` lies in [0, 1]; it is 1 exactly when every fake score is < -th and 0 exactly when none is |
| Training.ZeroLossAllTrue | simplenet_vit.py:1070-1078 | a zero loss forces `p_true` = 1 |
| Training.ZeroLossFakeBoundary | simplenet_vit.py:1071-1073 | a zero loss does not force `p_fake` = 1: a fake score of exactly -th costs nothing but is not counted, since the test is strict |
| Selection.Step | simplenet_vit.py:730-744 | after an epoch there is always a record; weights are saved exactly when the record changes (always in the first epoch), and then the snapshot is this epoch; otherwise nothing changes |
| Selection.StepCases | simplenet_vit.py:735-744 | a higher image AUROC replaces the whole record; a tie with a higher pixel AUROC keeps the image AUROC and takes the new pixel AUROC and PRO; anything else is ignored |
| Selection.SelectIsEarliestBest | simplenet_vit.py:718-744 | there is a record exactly when an epoch ran; the record is the evaluation of the snapshot epoch, no epoch beats it by (image AUROC, then pixel AUROC), and every earlier epoch is strictly worse |
| Selection.CheckpointKeys | simplenet_vit.py:708-716 | the saved checkpoint has a discriminator entry exactly when an epoch ran, a pre-projection entry exactly when additionally `pre_proj > 0`, and nothing else |
| Selection.SelectExample | simplenet_vit.py:730-744 | (0.80, 0.70, 0.5), (0.85, 0.60, 0.4), (0.85, 0.65, 0.6) selects the third epoch's record |
| Normalisation.RescaleFacts | simplenet_vit.py:648 | a value in [lo, hi] rescales into [0, 1], lo to 0 and hi to 1, and scaling back recovers it |
| Normalisation.NormalizeImageScores | simplenet_vit.py:645-648 | succeeds exactly when there are at least two scores and not all equal (no score fails the reductions; one score or equal scores give 0/0); the results lie in [0, 1], the least score gives 0 and the greatest 1, and scaling back recovers each raw score |
| Normalisation.RescaleAll | simplenet_vit.py:648 | every value within [lo, hi] lands in [0, 1] and scales back to itself |
| Normalisation.ImageScoresOrder | simplenet_vit.py:645-648 | the image normalisation keeps the order of the scores, strictly and in both directions |
| Normalisation.Den | simplenet_vit.py:669 | the denominator is at least 0.01 and at least the range, and equals the range from 0.01 up |
| Normalisation.NormalizeSegmentations | simplenet_vit.py:655-670 | the segmentation normalisation succeeds exactly when there are at least two maps and they are non-empty (a single image fails at `len(scores)` on its 0-d squeezed scores); it keeps their shape |
| Normalisation.Gain | simplenet_vit.py:668-670 | the common slope (the mean of 1/den over all maps) is positive |
| Normalisation.SegmentationIsAffine | simplenet_vit.py:667-670 | every pixel of every map goes through one shared map x -> Gain*x - Offset |
| Normalisation.SegmentationOrder | simplenet_vit.py:667-670 | the segmentation normalisation keeps the order of any two pixels, in any maps, strictly and in both directions |
| Normalisation.ConstantSegmentations | simplenet_vit.py:667-670 | maps that all hold one constant normalise to 0 everywhere, not NaN |
| Normalisation.TwoConstantMaps | simplenet_vit.py:655-670 | two 2-by-2 maps of 5.0 normalise to zeros, while one such map alone fails |

## Left out

- The backbone (`feature_aggregator`), `pre_projection`, BatchNorm/LeakyReLU values, optimisers and learning-rate schedules: learned or external numerics. Discriminator outputs and features are inputs.
- Bilinear interpolation's values in the alignment step: only its shape contract is modelled.
- Random draws (`torch.randint`, `torch.normal`): the component indices and noise samples are parameters.
- Floating point: `real` replaces float32/float64. `math.sqrt` is taken as exact, so `int(math.sqrt(L))` is the integer square root, and `h // 1.5` is taken as floor(2h/3).
- The metrics library (`compute_imagewise_retrieval_metrics`, `compute_pixelwise_retrieval_metrics`, `compute_pro`): Selection takes each epoch's (image AUROC, pixel AUROC, PRO) as given. The order lemmas show that the normalisations do not change rank-based metrics.
- The no-mask branch of `_evaluate`, where pixel AUROC and PRO are -1: it is only a value of the Selection input.
- The domain-adaptation path (`daembed`, `da_embed`, the domain classifier, Connector, Projection), logging, TensorBoard, checkpoint loading and saving as I/O, and `convert_to_segmentation`. `common.*` modules are not part of this model.
- Embed.PreprocessShape: `zip` over modules and layers is taken as one module per layer, so a module list shorter than the layers is not modelled.
- `common.Preprocessing` and `common.Aggregator`, which `_embed` calls at simplenet_vit.py:474-475: the `common` module is not part of this model. The in-file `MeanMapperad`, `Preprocessingad` and `Aggregatorad` (simplenet_vit.py:208-247), which the domain-adaptation path uses, stand in for them. Pooling and the Embed pooling shapes are taken to compute what those `common` classes compute.
- Alignment.AlignShape: states the result whenever it succeeds, and gives success only as a sufficient condition (Alignment.AlignShapeOk), not as an exact condition.
- Alignment.GridToBack: success is stated as a sufficient condition (patch axis equal to the grid size), which is how patchify produces it.
- Normalisation.NormalizeImageScores: when every score is equal, numpy divides 0 by 0 and carries on with NaN for every score. The model returns `Err` there instead, because `real` has no NaN. A single test image is such a case: its score squeezes to a 0-d array, whose minimum and maximum are the score itself.
- Training.HingeLoss: the mean over an empty half of the scores is NaN in torch, and the loss with it. The model returns `Err` instead, because `real` has no NaN. Both halves have the batch's length, so this happens only for an empty batch.
- Training.PTrue: with no true scores, torch divides 0 by 0 and logs NaN. The model returns `Err` instead, because `real` has no NaN.
- Training.PFake: with no fake scores, torch divides 0 by 0 and logs NaN. The model returns `Err` instead, because `real` has no NaN.

## Findings

| source | as written | input that shows it | evidently intended | confidence | as-written member | corrected member |
|---|---|---|---|---|---|---|
| simplenet_vit.py:102-115 | `_hidden` starts as `hidden` when one is given, and with `n_layers <= 1` the loop never runs, so the tail is `Linear(hidden, 1)` while the network's input has `in_planes` features | `Discriminator(1536, n_layers=1, hidden=1024)`: the body is empty and the tail expects 1024 inputs but receives 1536 | with an empty body the tail reads `in_planes` features, so it is `Linear(in_planes, 1)` | not executed | Discriminator.AsWrittenMismatch | Discriminator.CorrectedChained |
