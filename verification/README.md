# Image enhancer: filter pipeline, tiled upscaling and output format

This project models three parts of a web image enhancer:

- The browser-side filter pipeline of `src/utils/imageEnhancement.ts`. It works on the RGBA byte buffer of a canvas:
  - a denoiser made of non-local means, an edge-aware bilateral filter, a selective median and a multi-scale wavelet-like shrinkage;
  - a brightness/contrast remap;
  - an edge-adaptive sharpening.

  Each filter is modelled twice. A `method` over an `array<int>` follows the source's loops. A function on `seq<int>` says what the buffer holds afterwards. Every method is proved to produce exactly what its function says. The lemmas about the functions prove the following:
  - every filter keeps alpha;
  - each of the four denoising passes, and so the whole denoiser, keeps each colour channel within the range the input channel spanned, for every intensity up to 1 (the slider maximum);
  - the whole pipeline maps a byte buffer to a byte buffer at every setting;
  - a flat image is a fixed point of the denoiser and of the sharpening, and stays flat through the whole pipeline;
  - the one-pass variance equals the two-pass variance;
  - the median of the 3x3 window has the rank of a median, and at full intensity, an impulse at least 100 away from eight equal neighbours is replaced by their value;
  - the sharpening kernel sums to one;
  - the tone remap is monotone.
- The tile geometry of `enhance_image_tiled` in `backend/realesrgan_service.py`. An image is cut into overlapping windows, each window is upscaled by a model, and the trimmed results are stitched into the output. The model proves that the regions kept under the corrected trimming tile the output exactly. Every output sample has exactly one owning tile, and the stitching loop leaves every sample holding its owner's upscaled value when the trimming is corrected. The trimming as written leaves some samples at zero in some cases; see Findings.
- The choice of encoder parameters by output-file extension in the same file. `os.path.splitext` is modelled for POSIX and Windows separators, followed by lower-casing and the `.jpg`/`.jpeg`/`.png`/`.webp` chain.

JavaScript numbers are modelled as reals. `Math.round` is `Round`, i.e. floor of x + 0.5. A store into a `Uint8ClampedArray` is `ToUint8Clamp`: it clamps to [0, 255] and rounds half to even. A store of an already rounded value is `RoundStore`. `Math.exp` and `Math.sqrt` are function parameters of a `MathLib`. The only assumptions made about them are the ones `Sound` states: `exp` is never negative, and `sqrt` is non-negative on non-negative arguments and zero at zero.

Modules, one file each:
- `Raster`: the buffer layout.
- `JsNumbers`: the number semantics.
- `Smoothing`: the weighted sums shared by the averaging filters.
- `Stats`: variance, sorting and median ranks.
- `Neighbourhood`: local variance and Sobel edge strength.
- One module per filter: `NonLocalMeans`, `Bilateral`, `SelectiveMedian`, `Wavelet`, `AdaptiveSharpening`, `BrightnessContrast`.
- `Enhancer`: the stage order.
- `Tiling`: the per-axis tile arithmetic.
- `TiledUpscale`: the tile loop over a 2-D output.
- `OutputFormat`: the extension chain.

## Model

| member | source | states |
|---|---|---|
| JsNumbers.Round | src/utils/imageEnhancement.ts:342 | `Math.round` lands within half a unit of its argument |
| JsNumbers.ToUint8Clamp | src/utils/imageEnhancement.ts:391 | a store into the clamped byte array yields a byte: it is 0 at or below 0 and 255 at or above 255, within half a unit in between, and even on ties |
| JsNumbers.StoreMonotone | src/utils/imageEnhancement.ts:391 | storing into the clamped byte array never reverses the order of two values |
| JsNumbers.RoundStoreBetween | src/utils/imageEnhancement.ts:355 | a rounded value stored into the byte array stays between two byte bounds that bracket it |
| Raster.CoordsOf | src/utils/imageEnhancement.ts:101 | every buffer index is `(y * width + x) * 4 + c` for exactly one in-image pixel and channel |
| Raster.IdxCoords | src/utils/imageEnhancement.ts:154 | the index of pixel (x, y), channel c, lies in the buffer and decodes back to (x, y, c) |
| Raster.CopyColour | src/utils/imageEnhancement.ts:397-402 | copying back the three colour samples of every pixel leaves each colour sample equal to the new buffer's and each alpha sample unchanged |
| Raster.SweepEnd | src/utils/imageEnhancement.ts:96-98 | once the sweep over the interior pixels has finished, the buffer is the filter's result: interior colour samples are replaced and everything else is kept |
| Smoothing.MeanBracketed | src/utils/imageEnhancement.ts:136 | a weighted mean with non-negative weights lies between the least and the greatest sample averaged |
| Smoothing.PlusBracketed | src/utils/imageEnhancement.ts:129-130 | accumulating a further weighted sample keeps the running sums bracketed |
| Smoothing.BlendBetween | src/utils/imageEnhancement.ts:137 | blending the centre sample with the filtered value by a factor in [0, 1] lies between the two |
| Smoothing.BlendFixed | src/utils/imageEnhancement.ts:186 | blending a value with itself gives the value |
| Stats.OnePassVariance | src/utils/imageEnhancement.ts:212-213 | the one-pass formula `sumSquared / count - mean * mean` equals the two-pass variance of the window and is non-negative |
| Stats.VarianceNonNegative | src/utils/imageEnhancement.ts:213 | the variance of a non-empty window is non-negative |
| Stats.ConstantWindow | src/utils/imageEnhancement.ts:193-214 | a constant window has variance zero |
| Stats.Sort | src/utils/imageEnhancement.ts:287 | the sorted window is ordered and a permutation of the values |
| Stats.MedianRank | src/utils/imageEnhancement.ts:287-288 | the middle element of the sorted window is a window value with at least half the values at or below it and at least half at or above it |
| Stats.OutlierIgnored | src/utils/imageEnhancement.ts:287-288 | if all values but one are equal to v, the median is v |
| Neighbourhood.CalculateLocalVariance | src/utils/imageEnhancement.ts:193-215 | returns the variance of the in-image samples of the (2r+1)-square window, which is never empty and the result is non-negative |
| Neighbourhood.LocalWindowCount | src/utils/imageEnhancement.ts:198-209 | the count the variance divides by is the number of window cells inside the image: at most (2r+1)^2, and exactly (2r+1)^2 when the pixel is at least r from every edge |
| Neighbourhood.CalculateEdgeStrength | src/utils/imageEnhancement.ts:217-245 | returns 0 on the image border and otherwise the Sobel gradient magnitude divided by 255 |
| Neighbourhood.SobelKernelsSumToZero | src/utils/imageEnhancement.ts:221-231 | both Sobel kernels sum to zero |
| Neighbourhood.EdgeStrengthFlat | src/utils/imageEnhancement.ts:217-245 | on a flat 3x3 patch, or on the border, the edge strength is zero |
| Neighbourhood.EdgeStrengthNonNegative | src/utils/imageEnhancement.ts:244 | the edge strength is never negative |
| NonLocalMeans.PatchWithinSearch | src/utils/imageEnhancement.ts:92-93 | the patch radius is at least 1 and never exceeds the search radius |
| NonLocalMeans.PatchDifference | src/utils/imageEnhancement.ts:113-123 | the loop computes the squared patch difference and counts `(2pr+1)^2` samples |
| NonLocalMeans.PatchAreaSquare | src/utils/imageEnhancement.ts:116-123 | the patch loop visits `(2pr+1)^2` samples |
| NonLocalMeans.PatchSelf | src/utils/imageEnhancement.ts:116-123 | a patch compared with itself differs by zero |
| NonLocalMeans.PatchSymmetric | src/utils/imageEnhancement.ts:116-123 | the patch difference is symmetric in the two patch centres |
| NonLocalMeans.WeightNonNegative | src/utils/imageEnhancement.ts:126 | candidate weights are non-negative |
| NonLocalMeans.OffsetsHas | src/utils/imageEnhancement.ts:104-105 | the search offsets are exactly the values from -R to R that differ from -R by an even amount |
| NonLocalMeans.SearchOverGrid | src/utils/imageEnhancement.ts:104-130 | the search sums are the candidate contributions summed over those offsets in both directions |
| NonLocalMeans.CentreOnGrid | src/utils/imageEnhancement.ts:92-105 | the centre offset (0, 0) is among the candidates if and only if the search radius is even |
| NonLocalMeans.CentreSkippedAtLowIntensity | src/utils/imageEnhancement.ts:92-105 | below intensity 0.5 (a setting below 50) the search radius is 3, so the pixel itself is never a candidate |
| NonLocalMeans.CentreCandidate | src/utils/imageEnhancement.ts:104-130 | the centre offset, when the search reaches it, contributes the centre sample with weight `exp(0)` |
| NonLocalMeans.NlmSample | src/utils/imageEnhancement.ts:99-133 | the search loop's sums equal the weighted sums over the candidates every second row and column |
| NonLocalMeans.DenoiseSample | src/utils/imageEnhancement.ts:135-138 | a value is written exactly when the weight sum is positive, and it is the stored rounding of the original blended with the weighted mean by factor `0.7 * intensity` |
| NonLocalMeans.ApplyNonLocalMeansDenoising | src/utils/imageEnhancement.ts:91-142 | the buffer afterwards is the non-local-means pass over the snapshot: inset colour samples are filtered and all others are kept |
| NonLocalMeans.NlmPassAt | src/utils/imageEnhancement.ts:96-138 | each inset colour sample of the pass is the filtered value at that pixel |
| NonLocalMeans.FilteredBetween | src/utils/imageEnhancement.ts:136 | the weighted mean lies within the channel's range |
| NonLocalMeans.NlmPassWithin | src/utils/imageEnhancement.ts:91-142 | for an intensity in (0, 1], i.e. a setting up to the slider maximum of 100, the pass keeps every channel within the range it spanned |
| NonLocalMeans.NlmPassBytes | src/utils/imageEnhancement.ts:91-142 | the pass maps a byte buffer to a byte buffer at every intensity |
| NonLocalMeans.NlmUniform | src/utils/imageEnhancement.ts:91-142 | a flat byte image is a fixed point of the pass |
| Bilateral.AdaptedSigma | src/utils/imageEnhancement.ts:175 | the edge-adapted range sigma is at least 30 |
| Bilateral.NeighbourWeightNonNegative | src/utils/imageEnhancement.ts:168-178 | every neighbour weight (spatial times range) is non-negative |
| Bilateral.Stride | src/utils/imageEnhancement.ts:158-159 | the neighbourhood step is 1 or 2, depending on the local variance |
| Bilateral.FilterWindow | src/utils/imageEnhancement.ts:161-182 | the neighbourhood loop's sums equal the weighted sums over the strided window |
| Bilateral.SmoothSample | src/utils/imageEnhancement.ts:184-187 | a value is written exactly when the weight sum is positive, and it is the stored rounding of the centre blended with the weighted mean by factor `0.6 * intensity` |
| Bilateral.ApplyImprovedBilateralFilter | src/utils/imageEnhancement.ts:144-191 | the buffer afterwards is the bilateral pass over the snapshot: inset colour samples are filtered and all others are kept |
| Bilateral.BilateralPassAt | src/utils/imageEnhancement.ts:149-187 | each inset colour sample of the pass is the filtered value at that pixel |
| Bilateral.FilteredBetween | src/utils/imageEnhancement.ts:185 | the weighted mean lies within the channel's range |
| Bilateral.BilateralPassWithin | src/utils/imageEnhancement.ts:144-191 | for an intensity in (0, 1], i.e. a setting up to the slider maximum of 100, the pass keeps every channel within the range it spanned |
| Bilateral.BilateralPassBytes | src/utils/imageEnhancement.ts:144-191 | the pass maps a byte buffer to a byte buffer at every intensity |
| Bilateral.BilateralUniform | src/utils/imageEnhancement.ts:144-191 | a flat byte image is a fixed point of the pass |
| SelectiveMedian.Deviation | src/utils/imageEnhancement.ts:273-274 | the deviation from the neighbour mean is non-negative |
| SelectiveMedian.NeighbourTotal | src/utils/imageEnhancement.ts:263-271 | the loop sums the eight neighbours and counts 8 |
| SelectiveMedian.GatherWindow | src/utils/imageEnhancement.ts:278-285 | the gathered values are the nine samples of the 3x3 window, row by row |
| SelectiveMedian.WindowMedian | src/utils/imageEnhancement.ts:278-288 | the median computed by sorting is the window's median |
| SelectiveMedian.MedianSample | src/utils/imageEnhancement.ts:256-293 | reports exactly the samples deviating by more than the threshold, and for them the median blend |
| SelectiveMedian.ApplySelectiveMedianFilter | src/utils/imageEnhancement.ts:247-297 | the buffer afterwards is the median pass over the snapshot: interior colour samples are repaired where noisy and all others are kept |
| SelectiveMedian.MedianPassAt | src/utils/imageEnhancement.ts:277-292 | each interior colour sample of the pass is kept unless noisy, else blended toward the median |
| SelectiveMedian.MedianOfRank | src/utils/imageEnhancement.ts:280-288 | the median is a window value with at least five of the nine at or below and five at or above it |
| SelectiveMedian.BlendFactorProportion | src/utils/imageEnhancement.ts:291 | the blend factor lies in [0, intensity] |
| SelectiveMedian.FlatPatchKept | src/utils/imageEnhancement.ts:273-277 | on a flat patch the deviation is zero and the sample is kept |
| SelectiveMedian.ImpulseRemoved | src/utils/imageEnhancement.ts:273-292 | at full intensity, a sample differing by at least 100 from eight equal neighbours is replaced by their value |
| SelectiveMedian.RepairedBetween | src/utils/imageEnhancement.ts:287-292 | the median and the repaired sample stay within the channel's range |
| SelectiveMedian.MedianPassWithin | src/utils/imageEnhancement.ts:247-297 | for an intensity in (0, 1], i.e. a setting up to the slider maximum of 100, the pass keeps every channel within the range it spanned |
| SelectiveMedian.MedianPassBytes | src/utils/imageEnhancement.ts:247-297 | the pass maps a byte buffer to a byte buffer at every intensity with a positive noise threshold `20 + 30 * intensity`, which holds at every intensity the denoiser runs it at |
| SelectiveMedian.MedianUniform | src/utils/imageEnhancement.ts:247-297 | a flat image is a fixed point of the pass |
| Wavelet.LocalMeanOf | src/utils/imageEnhancement.ts:313-328 | the loop computes the mean of the in-image samples visited at stride `max(1, scale/2)` |
| Wavelet.LocalMeanIs | src/utils/imageEnhancement.ts:316-328 | the local mean divides by a count of at least one |
| Wavelet.LocalMeanBetween | src/utils/imageEnhancement.ts:328 | the local mean lies within the channel's range |
| Wavelet.ShrunkBetween | src/utils/imageEnhancement.ts:339-342 | a soft-thresholded sample stays within a range that holds both the sample and the mean |
| Wavelet.ShrunkFixed | src/utils/imageEnhancement.ts:339-342 | a sample equal to the local mean is unchanged by the shrinkage |
| Wavelet.ThresholdGrid | src/utils/imageEnhancement.ts:309-349 | the grid loop leaves the scaled copy as the shrinkage over all grid points |
| Wavelet.BlendLoop | src/utils/imageEnhancement.ts:352-357 | the blend loop mixes every colour sample with the scaled copy and keeps alpha |
| Wavelet.DenoiseAtScale | src/utils/imageEnhancement.ts:307-357 | one scale shrinks a copy and blends it back into the buffer |
| Wavelet.ApplyWaveletDenoising | src/utils/imageEnhancement.ts:299-359 | the buffer afterwards is the pass over scales 2, 4 and 8, skipping scales of at least a quarter of the smaller side |
| Wavelet.WaveletWithin | src/utils/imageEnhancement.ts:299-359 | for an intensity in [0, 1], i.e. a setting up to the slider maximum of 100, the pass keeps every channel within the range it spanned |
| Wavelet.WaveletAlpha | src/utils/imageEnhancement.ts:353-357 | the pass keeps alpha |
| Wavelet.WaveletBytes | src/utils/imageEnhancement.ts:299-359 | the pass maps a byte buffer to a byte buffer at every intensity |
| Wavelet.WaveletUniform | src/utils/imageEnhancement.ts:299-359 | a flat byte image is a fixed point of the pass |
| Wavelet.WaveletSmall | src/utils/imageEnhancement.ts:305 | an image whose smaller side is at most 8 is left unchanged, since every scale is skipped |
| AdaptiveSharpening.KernelSumsToOne | src/utils/imageEnhancement.ts:375-379 | the 3x3 sharpening kernel sums to one for every strength |
| AdaptiveSharpening.Correlate | src/utils/imageEnhancement.ts:381-388 | the kernel loop computes the kernel-weighted sum of the 3x3 window |
| AdaptiveSharpening.SharpenSample | src/utils/imageEnhancement.ts:367-391 | the stored value is the clamped and stored correlation with the edge-adapted kernel |
| AdaptiveSharpening.SharpenAt | src/utils/imageEnhancement.ts:391 | the sharpened sample is a byte |
| AdaptiveSharpening.ApplyAdaptiveSharpening | src/utils/imageEnhancement.ts:361-403 | the buffer afterwards is the sharpening pass: interior colour samples are sharpened from the snapshot and all others are kept |
| AdaptiveSharpening.SharpenPassAt | src/utils/imageEnhancement.ts:365-391 | each interior colour sample of the pass is the sharpened value at that pixel |
| AdaptiveSharpening.SharpenFlatPatch | src/utils/imageEnhancement.ts:371-391 | on a flat patch the sharpened sample equals the original |
| AdaptiveSharpening.SharpenUniform | src/utils/imageEnhancement.ts:361-403 | a flat byte image is a fixed point of the pass |
| BrightnessContrast.ApplyBrightnessContrast | src/utils/imageEnhancement.ts:405-416 | the buffer afterwards has every colour sample remapped and alpha kept |
| BrightnessContrast.ToneMap | src/utils/imageEnhancement.ts:409-414 | remapped colour samples are bytes and alpha samples are unchanged |
| BrightnessContrast.ToneNearValue | src/utils/imageEnhancement.ts:411-413 | the stored byte is within half a unit of the clamped affine value |
| BrightnessContrast.ToneMonotone | src/utils/imageEnhancement.ts:406-413 | for non-negative intensity the remap preserves order |
| BrightnessContrast.ToneZero | src/utils/imageEnhancement.ts:406-413 | at intensity 0 the remap is the identity on bytes |
| BrightnessContrast.MidGreyAtFullIntensity | src/utils/imageEnhancement.ts:406-413 | at intensity 1, mid-grey 128 becomes 143 |
| BrightnessContrast.ToneMapUniform | src/utils/imageEnhancement.ts:405-416 | a flat buffer stays flat |
| BrightnessContrast.ToneMapBytes | src/utils/imageEnhancement.ts:405-416 | a byte buffer stays a byte buffer |
| Enhancer.ApplyAdvancedDenoising | src/utils/imageEnhancement.ts:69-89 | the buffer afterwards is the result of non-local means, then bilateral, then the median above intensity 0.3, then the wavelet above 0.6 |
| Enhancer.ApplyEnhancements | src/utils/imageEnhancement.ts:47-67 | the buffer afterwards is the result of the denoiser, then the tone remap, then the sharpening, each run only when its setting is positive |
| Enhancer.RunDenoiseStage | src/utils/imageEnhancement.ts:52-54 | the buffer becomes the denoiser's result at intensity deblurring / 100 when the setting is positive, and is unchanged otherwise |
| Enhancer.RunToneStage | src/utils/imageEnhancement.ts:57-59 | the buffer becomes its brightness/contrast remap at faceEnhancement / 100 when the setting is positive, and is unchanged otherwise |
| Enhancer.RunSharpenStage | src/utils/imageEnhancement.ts:62-64 | the buffer becomes its sharpened form at sharpening / 100 when the setting is positive, and is unchanged otherwise |
| Enhancer.EnhanceAllOff | src/utils/imageEnhancement.ts:52-64 | with every setting at or below zero the buffer is unchanged |
| Enhancer.EnhanceAlpha | src/utils/imageEnhancement.ts:47-67 | the whole pipeline keeps every alpha sample |
| Enhancer.DenoiseWithin | src/utils/imageEnhancement.ts:69-89 | for an intensity in (0, 1], the denoiser keeps every channel within the range it spanned |
| Enhancer.DenoiseBytes | src/utils/imageEnhancement.ts:69-89 | the denoiser maps a byte buffer to a byte buffer at every intensity |
| Enhancer.EnhanceBytes | src/utils/imageEnhancement.ts:47-67 | the pipeline maps byte buffers to byte buffers at every setting |
| Enhancer.DenoiseUniform | src/utils/imageEnhancement.ts:69-89 | a flat byte image is a fixed point of the denoiser |
| Enhancer.EnhanceUniform | src/utils/imageEnhancement.ts:47-67 | a flat byte image stays flat through the whole pipeline |
| Tiling.CeilDiv | backend/realesrgan_service.py:37-38 | the ceiling of n / e is the least q with `q * e >= n` |
| Tiling.Count | backend/realesrgan_service.py:34-38 | the tile count k is at least 1, and k tiles are the fewest, `effective_tile_size` apart, that reach past n |
| Tiling.WindowInImage | backend/realesrgan_service.py:48-51 | every tile window is a non-empty range inside the image |
| Tiling.ValidInTile | backend/realesrgan_service.py:83-86 | both the as-written and the corrected trimmed ranges are non-empty and inside the tile result |
| Tiling.PlacedInOutput | backend/realesrgan_service.py:93-98 | every placed region is non-empty and inside the output, so the bounds check always passes |
| Tiling.PlacedAbut | backend/realesrgan_service.py:83-98 | with the corrected trimming, each placed region ends where the next one starts |
| Tiling.PlacedAsWrittenAbutIff | backend/realesrgan_service.py:85-86 | as written, placed regions never overlap, and they abut exactly when the tile window was not clipped by the image edge |
| Tiling.UnclippedTile | backend/realesrgan_service.py:83-86 | for an unclipped tile, the as-written and the corrected trimmings agree |
| Tiling.DefaultGridGap | backend/realesrgan_service.py:85-86 | with tile 512, overlap 32 and scale 2, a 470-pixel axis gets output positions 876..895 that no tile covers |
| Tiling.OwnerPlaced | backend/realesrgan_service.py:45-98 | with the corrected trimming, every output position lies in the placed region of its owning tile |
| Tiling.OwnerUnique | backend/realesrgan_service.py:45-98 | with the corrected trimming, a position lies in the placed region of no tile other than its owner |
| Tiling.AsWrittenInsidePlaced | backend/realesrgan_service.py:83-86 | each region placed as written starts where the corrected one does and ends no later |
| Tiling.CoveredIff | backend/realesrgan_service.py:45-98 | under either trimming, tile j's placed region holds a position if and only if j owns it and the position is covered, so no two tiles write the same sample |
| Tiling.CorrectedCovers | backend/realesrgan_service.py:45-98 | with the corrected trimming every output position is covered |
| Tiling.DefaultGridUncovered | backend/realesrgan_service.py:85-86 | as written, with tile 512, overlap 32 and scale 2, output positions 876..895 of a 470-pixel axis are not covered |
| TiledUpscale.Crop | backend/realesrgan_service.py:54 | the crop is the rectangle of the image between the window bounds |
| TiledUpscale.TileResult | backend/realesrgan_service.py:54-80 | the tile result, resized if needed, has the expected shape |
| TiledUpscale.ValidSpan | backend/realesrgan_service.py:83-90 | the trimmed range, as written or corrected, lies inside the tile result and maps onto the tile's placed region of the output under that trimming |
| TiledUpscale.PlaceTile | backend/realesrgan_service.py:48-100 | under either trimming, exactly the covered output samples that tile (i, j) owns change, and they receive that tile's upscaled samples |
| TiledUpscale.WriteTile | backend/realesrgan_service.py:82-98 | under either trimming, the samples in the tile's placed ranges change to the result's samples at the same offset from the tile's upscaled window start, and every other sample keeps its value |
| TiledUpscale.EnhanceImageTiled | backend/realesrgan_service.py:22-104 | the output is `scale` times the image in both directions; a sample whose row and column are covered holds its owning tile's upscaled value and every other sample stays zero; with the corrected trimming every sample holds its owner's value |
| OutputFormat.LastIndexIn | backend/realesrgan_service.py:196 | finds the last separator: no later character is one |
| OutputFormat.SplitExt | backend/realesrgan_service.py:196 | root plus extension is the path; a non-empty extension is a dot followed by characters that are neither dots nor separators (so `a.` gives the extension `.`); when the extension is non-empty, the root's last component holds a character other than a dot (so `a.b.c` gives the root `a.b`) |
| OutputFormat.SplitNamed | backend/realesrgan_service.py:196 | any such stem and extension are split back apart, the converse of `SplitExt` |
| OutputFormat.SplitPlain | backend/realesrgan_service.py:196 | a last component without a dot has an empty extension |
| OutputFormat.SplitDotFile | backend/realesrgan_service.py:196 | a last component that is a dot followed by a name (a hidden file) has an empty extension |
| OutputFormat.Lower | backend/realesrgan_service.py:197 | lower-casing keeps the length and lowers each character |
| OutputFormat.LowerIdempotent | backend/realesrgan_service.py:197 | lower-casing twice is lower-casing once |
| OutputFormat.Compression | backend/realesrgan_service.py:202-216 | JPEG and WebP qualities lie in 0..100 and the PNG level in 0..9; encoder defaults are used exactly when the lowered extension is none of the four known |
| OutputFormat.CompressionOfNamed | backend/realesrgan_service.py:196-216 | a named file gets the parameters of its lowered extension, and the choice ignores letter case |
| OutputFormat.UpperCaseJpeg | backend/realesrgan_service.py:202-204 | `photo.JPG` gets JPEG quality 95 |
| OutputFormat.DotFileDefaults | backend/realesrgan_service.py:196-216 | `out/.png` has no extension and gets the encoder defaults |
| OutputFormat.BackslashOnPosix | backend/realesrgan_service.py:196-209 | on POSIX, `x\.png` gets PNG level 9 |
| OutputFormat.BackslashOnWindows | backend/realesrgan_service.py:196-216 | on Windows, `x\.png` is a hidden file in directory `x` and gets the encoder defaults |

## Left out

- `enhanceImage` and the canvas: image loading, `getImageData`/`putImageData`, `toDataURL`, and the canvas resize used for the super-resolution setting. They are browser I/O. The model starts from the RGBA buffer that `getImageData` returns.
- The inference step of `enhance_image_tiled`: `preprocess_tile`, the compiled OpenVINO model and `postprocess_tile` are one function parameter, `infer`. `cv2.resize` is a parameter `resize` known only by the shape of its result. The progress bar and the log messages are left out.
- The write itself (`cv2.imwrite`), the colour conversion before it and the rest of the Python service (model loading, pre- and post-sharpening, `app.py`). They are image I/O and library calls. The model ends at the encoder parameters chosen.
- The user interface components under `src/components` and `src/pages`. They hold no filter logic.
- Floating point: JavaScript and NumPy doubles are modelled as exact reals, so rounding error inside the filters' sums is not modelled. `Math.exp` and `Math.sqrt` are parameters, constrained only by `Sound`.
- Tiling.Count: `np.ceil(h / effective_tile_size)` is modelled as an exact integer ceiling. This is the same for any image size a double division represents exactly.
- Tiling.Sane: only configurations where `tile_size - 2 * overlap` is positive and at least `overlap` are modelled. The default 512/32 is one of them. Others make the source slice with negative or empty bounds.
- TiledUpscale.EnhanceImageTiled, TiledUpscale.PlaceTile, TiledUpscale.WriteTile and TiledUpscale.ValidSpan take the trimming as a parameter. `AsWritten` is the code's own `valid_x_end`; `Corrected` is the fix of the Findings row. Under it every output sample is filled; under `AsWritten` some samples of some images stay zero.
- TiledUpscale.Setup: the model requires that `resize` returns the requested shape. Nothing is assumed about the shape `infer` returns, since the source resizes any mismatch.
- OutputFormat.Lower: Python's `str.lower` is Unicode. The model lowers ASCII letters only. This decides the same branch: the only non-ASCII characters that lower to ASCII letters are the Kelvin sign, which lowers to `k`, and the dotted capital I, which lowers to `i` plus a combining dot, and none of the four known extensions contains a `k` or an `i`.
- OutputFormat.SplitExt: `os.path.splitext` is modelled for the separators of POSIX (`/`) and Windows (`\` and `/`). `ntpath.splitext` does no drive handling of its own, so the result for a path with a drive letter is the same as modelled.
- Enhancer.DenoiseWithin, NonLocalMeans.NlmPassWithin, Bilateral.BilateralPassWithin, SelectiveMedian.MedianPassWithin and Wavelet.WaveletWithin require an intensity of at most 1, i.e. a setting of at most 100, which is the slider's maximum. Above it, the blends extrapolate and the range bound need not hold.
- SelectiveMedian.ApplySelectiveMedianFilter requires a positive noise threshold, `20 + 30 * intensity > 0`. This holds for every intensity the sliders produce.
- The `...At` functions with a `layer` argument (for example `Smoothing.BracketedAt` and `Bilateral.RowFromAt`) hold the definitions the verifier is meant to unfold one step at a time. They add no behaviour.

## Findings

| source | as written | input that shows it | evidently intended | confidence | as-written member | corrected member |
|---|---|---|---|---|---|---|
| backend/realesrgan_service.py:85-86 | a tile that is not the last one always trims `overlap * scale` from the end of its result, even when its window was clipped by the image edge and so carries no trailing overlap | width 470, tile 512, overlap 32, scale 2: two tiles; the first covers output columns 0..875 and the second starts at 896, so columns 876..895 keep the zeros of the initial output | trim only the overlap the window actually has past the tile's stride, so consecutive placed regions abut and cover the output | not executed | Tiling.DefaultGridGap, Tiling.DefaultGridUncovered, TiledUpscale.EnhanceImageTiled | Tiling.PlacedAbut, Tiling.OwnerPlaced, Tiling.CorrectedCovers, TiledUpscale.EnhanceImageTiled |
