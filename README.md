# Image grabbers and processing scripts, modelled in Dafny

This project models the deterministic core of the Earth Genome image service. That service pulls satellite imagery for a bounding box from DigitalGlobe, Planet and Landsat, and turns it into map products with a set of GDAL-driven scripts. The model covers:

- the template rules of the `ImageGrabber` base class (`grabber.dfy`): the overlap threshold, the `skip_days` fast-forward, style and landcover-index filtering, what `photoshop` keeps, and `search_clean`;
- Planet scene compilation (`planet.dfy`, `planet_grabber.py`): grouping a day's catalog records by (satellite id, item type), the overlap and copy filters, the `N_images` cap and `skip_days`, record cleaning, the landcover spec adjustment, and path reordering and reprojection;
- the web app's Planet grabber (`planet_webapp.dfy`): its landcover tweak, the asset type check against the band map, its scene collection, file names and path reordering;
- the web app's DigitalGlobe grabber (`dg.dfy`): the catalog search filters, the scene loop, the projection choice, the band choice and the file name;
- the grabber handlers (`handlers.dfy`): the provider filter, spec overrides, the bounding-box size clamp, the images check of a story, and the bookkeeping of `pull_for_geojson`;
- the Firebase index and data fallback (`firebase.dfy`);
- the COG helpers (`cog.dfy`, with `difflib.dfy` for `SequenceMatcher.find_longest_match`): nodata agreement, common-substring naming, histogram bin search, and the merge and COG command lines;
- the Landsat, tile and Sentinel scripts (`reduce_landsat.dfy`, `reprocess_landsat.dfy`, `reduce_tiles.dfy`, `sentinel.dfy`): partitioning by prefix, band filtering, bit-depth checks, and the GDAL and AWS argument lists they build;
- the web app's Landsat thumbnail grabber (`landsat_thumbnails.dfy`): the end-date schedule and colour processing;
- GeoJSON geometry listing and formatting (`geojsonio.dfy`), box coordinate orderings (`geobox.dfy`), UTM codes (`projections.dfy`) and the rio-hist `validate_proportion` check (`rio_hist.dfy`).

`wrappers.dfy` holds the `Option`/`Result` types and the Python exception kinds. `py.dfy` holds the Python builtins the code leans on: slicing, `split(sep)[0]`, `in` on strings, `lower`, `lstrip`, `str`/`int` of integers, truncation and set iteration. `json.dfy` holds the JSON value that specs and records are made of, and `jobs.dfy` holds the external command a script hands to `subprocess.call`, with the file it writes.

A Python exception is an `Err` of the matching kind, and a value that Python would reject at run time is a value of the model that gives that error. Records are reduced to the fields the logic reads. Dates are day numbers. Geometry, image I/O and network calls are parameters of the operations that use them. A subprocess call is modelled as the argument list it would run.

The web app's `_filter_copies` (webapp/grabbers/planet_grabber.py:257-274) is the same code as the root one, and the web app grabber reuses `Planet.PlanetGrabber.FilterCopies`, `GroupDay` and `DayScenes`. The root `geobox.make_bbox` equals the web app one, which `Geobox.MakeBbox` models.

## Model

| member | source | states |
|---|---|---|
| Projections.UtmBase | geobox/projections.py:5 | the base is 32601 exactly for positive latitudes and 32701 for zero or negative ones |
| Projections.UtmCode | geobox/projections.py:3-6 | the code is the hemisphere base plus (180 + lon) / 6 truncated toward zero, as `int()` does: the zone is at most that quotient and within one of it, on the side of zero |
| Projections.UtmCodeRange | geobox/projections.py:3-6 | for a longitude in [-180, 180) the code lies within the 60 zones above its hemisphere's base |
| Projections.UtmCodeMonotone | geobox/projections.py:6 | moving east never lowers the code |
| Projections.UtmCodeHemisphereOnly | geobox/projections.py:5-6 | latitude matters only through its hemisphere |
| Projections.UtmZoneWidth | geobox/projections.py:6 | longitudes in [-180+6k, -180+6(k+1)) get zone k above the base |
| Geobox.MakeBbox | webapp/geobox/geobox.py:24-31 | the box is centred on (lon, lat), deltalon wide and deltalat high |
| Geobox.MakeBboxOfCentre | webapp/geobox/geobox.py:29-31 | every box is the one `make_bbox` builds from its own centre and sides |
| Geobox.OsmToShapelyBox | webapp/geobox/geobox.py:61-73 | (S, N, W, E) becomes (minx=W, miny=S, maxx=E, maxy=N); fewer than four entries is IndexError, and only then |
| Geobox.Bounds | webapp/geobox/geobox.py:97 | a box's `.bounds` are its least and greatest x and y, whatever order `box()` got them in |
| Geobox.BoundsOfOrdered | webapp/geobox/geobox.py:97 | the bounds are the `box()` arguments exactly when those run west to east and south to north |
| Geobox.ShapelyToGdalBox | webapp/geobox/geobox.py:88-98 | the gdal list of the box's bounds: for every box its upper-left corner is left of and above the lower-right one, its x entries are the box's two x values and its y entries the two y values; for an ordered box it is (minx, maxy, maxx, miny) |
| Geobox.OsmToShapelyIsPermutation | webapp/geobox/geobox.py:72-73 | on four coordinates the OSM conversion succeeds and keeps every coordinate (a multiset permutation) |
| Geobox.ShapelyToGdalIsPermutation | webapp/geobox/geobox.py:97-98 | the gdal list holds exactly the box's four coordinates (a multiset permutation) |
| Geobox.OsmToGdal | webapp/geobox/geobox.py:61-98 | OSM (S, N, W, E) goes to gdal's (min(W, E), max(S, N), max(W, E), min(S, N)), which is (W, N, E, S) when W <= E and S <= N |
| Geobox.OsmToGdalSwapsInverted | webapp/geobox/geobox.py:61-98 | an OSM box listed east before west, (0, 1, 10, -10), comes out with its corners in place: (-10, 1, 10, 0) |
| GeoJsonIo.FeatureGeometries | webapp/geobox/geojsonio.py:28 | succeeds iff every feature is a dict with a geometry, and then yields the features' geometries in order; otherwise TypeError or KeyError |
| GeoJsonIo.ListGeometries | webapp/geobox/geojsonio.py:14-38 | a missing type is KeyError and an unknown type ValueError; a Feature gives the list of its one geometry, a bare geometry the list of itself, a GeometryCollection its geometries member as it is (KeyError without one); a FeatureCollection with a list of features succeeds iff every feature is a dict with a geometry, and then lists those geometries in order; a features member that is an empty dict or string lists nothing, and any other non-list is TypeError |
| GeoJsonIo.FormatCrs | webapp/geobox/geojsonio.py:74-80 | the crs member is type EPSG with properties {code: epsg_code} |
| GeoJsonIo.FormatGeometries | webapp/geobox/geojsonio.py:46-60 | a FeatureCollection with one Feature (empty properties) per geometry, in order; crs present iff the EPSG code is truthy, and then the formatted crs |
| GeoJsonIo.ListFormatRoundTrip | webapp/geobox/geojsonio.py:28-57 | listing the geometries of formatted geometries gives back exactly those geometries, with or without a crs |
| GeoJsonIo.GeometryListsAsItself | webapp/geobox/geojsonio.py:33-34 | a bare geometry lists as itself, and formatting and listing it again gives the same list |
| RioHist.ValidateProportion | postprocessing/rio-hist/rio_hist/scripts/cli.py:10-13 | BadParameter iff the value is below 0 or above 1; otherwise the same value, which lies in [0, 1] |
| RioHist.ValidateProportionExamples | postprocessing/rio-hist/tests/test_cli.py:109-114 | 0, 0.5 and 1 are accepted as themselves and 9000 is a bad parameter |
| RioHist.ValidateProportionIdempotent | postprocessing/rio-hist/rio_hist/scripts/cli.py:10-13 | validating an accepted value again accepts it unchanged |
| Firebase.RemoveForbidden | firebaseio.py:194-195 | the result is no longer than the input and holds none of . $ % [ ] # / ? or newline |
| Firebase.RemoveForbiddenConcat | firebaseio.py:194 | the substitution works character by character, so it distributes over concatenation |
| Firebase.RemoveForbiddenClean | firebaseio.py:194 | a string without forbidden characters is left unchanged (so the substitution is idempotent) |
| Firebase.RemoveForbiddenKeepsAllowed | firebaseio.py:194 | every allowed character survives, as many times as it occurs |
| Firebase.MakeIdx | firebaseio.py:179-195 | KeyError exactly when the record has neither title nor url, TypeError when the chosen one is not a string; otherwise the sanitised title (url when there is no title) cut to its first max_len characters: a prefix exactly min(max_len, length) long, with no forbidden character |
| Firebase.MakeIdxIdempotent | firebaseio.py:179-195 | an index made once is made again unchanged from a record titled with it |
| Firebase.MakeIdxCleanTitle | firebaseio.py:179-195 | a title of at most 96 allowed characters is its own index |
| Firebase.NewDBItem | firebaseio.py:168-177 | ValueError exactly when idx and record are both None; a given idx is kept as is; otherwise the idx is make_idx of the record and the constructor fails iff make_idx does |
| Firebase.Datum | firebaseio.py:112-120 | a story's own value for the key, else the EMPTY_DATA_VALUES stand-in, else KeyError |
| Firebase.GrabData | firebaseio.py:109-121 | succeeds iff every story has a datum; then one index and one datum per story, in order; otherwise the error of the first story without one |
| Cog.GetNodata | manual_processing/cog.py:85-102 | the common value when every header agrees, ValueError when two differ, IndexError for no files |
| Cog.GetNodataOrderFree | manual_processing/cog.py:98-102 | agreement does not depend on the order of the files |
| Cog.AllEqualTransfer | manual_processing/cog.py:98 | all-equal is kept by any reordering of the values |
| Cog.LcssStepAsWritten | manual_processing/cog.py:109-111 | the step as written (`path_a[match.a:match.size]`) still yields text found in both paths |
| Cog.LcssStep | manual_processing/cog.py:109-111 | the intended step yields text found in both paths, and no shared text is longer |
| Cog.LongestCommon | manual_processing/cog.py:110 | the longest matching block is at least as long as any text both strings contain |
| Cog.LcssFoldCommon | manual_processing/cog.py:106-112 | after the loop the text occurs in the first path and in every later one, with either slice |
| Cog.LcssCommon | manual_processing/cog.py:104-112 | no paths is StopIteration; one path comes back unchanged; the result occurs in every path |
| Cog.LcssTwoIsLongest | manual_processing/cog.py:104-112 | for two paths the corrected result is the longest text they share |
| Cog.LcssAsWrittenTruncates | manual_processing/cog.py:111 | for "xab" and "ab" the slice as written gives "a" where the longest shared text is "ab" |
| Cog.MatchOfExample | manual_processing/cog.py:110 | the longest match of "xab" and "ab" is a=1, b=0, size=2 |
| Cog.GetLcssAsWritten | manual_processing/cog.py:104-112 | the loop as written computes the fold of the as-written step |
| Cog.GetLcss | manual_processing/cog.py:104-112 | the loop with the corrected slice computes the fold of the longest-shared-text step |
| Cog.FirstReached | manual_processing/cog.py:226-230 | the first bin from i on whose cumulative percentage reaches p, with no earlier one; None when none does |
| Cog.FindBin | manual_processing/cog.py:224-231 | both bins are the least whose cumulative percentage reaches the percentile; IndexError iff one is never reached |
| Cog.FindBinLeast | manual_processing/cog.py:229-230 | no bin before the chosen one reaches its percentile |
| Cog.FindBinOrdered | manual_processing/cog.py:229-230 | for p0 <= p1 the low bin is at most the high bin |
| Cog.FindBinDefined | manual_processing/cog.py:226-231 | a histogram with a positive total finds a bin for every percentile up to 100 |
| Cog.LastBinReached | manual_processing/cog.py:227-230 | the last bin reaches every percentile up to 100 when the total is positive |
| Cog.ReachedMonotone | manual_processing/cog.py:229-230 | a bin that reaches a percentile reaches every lower one |
| Cog.ResolveNodata | manual_processing/cog.py:50 | an override nodata value is used as given; with none, the value every file header agrees on, or the error GetNodata gives |
| Cog.Warp | manual_processing/cog.py:50-68 | the nodata error first; then StopIteration for no inputs; otherwise the gdalwarp command over the inputs and the outpath lcss + 'merged.tif', with tiling options iff a tile size is set, the lcss taken by `_get_lcss` as written or as corrected according to asWritten; success iff the nodata value resolves and there are inputs |
| Cog.Merge | manual_processing/cog.py:31-68 | as intended: with rio_merge the rio_merge job, otherwise the gdalwarp job, both named with the corrected lcss; succeeds iff there are inputs and the nodata value resolves, and the outpath starts with text found in every input |
| Cog.MergeAsWritten | manual_processing/cog.py:31-68 | as written: with rio_merge set the call is TypeError, since the keyword argument shadows the module function; otherwise the gdalwarp job named with `_get_lcss` as written |
| Cog.RioRouteShadowed | manual_processing/cog.py:48-49 | for inputs whose nodata value resolves, merge with rio_merge fails as written and builds the rio merge command as intended |
| Cog.RioMerge | manual_processing/cog.py:74-83 | no inputs is StopIteration (before the nodata is read); a nodata error propagates; otherwise the rio merge command over the inputs writing lcss + 'merged.tif', the lcss taken as written or as corrected according to asWritten |
| Cog.MakeCog | manual_processing/cog.py:114-155 | a one-band 16-bit input is expanded and uses the fallback profile; nothing is written iff the profile is jpeg and the file is not 3-band 8-bit; otherwise the rio cogeo command, with --add-mask and -w iff asked for |
| Cog.CogOfMerged | manual_processing/cog.py:136-137 | lcss + 'merged' + rest becomes lcss + '.tif' |
| Cog.CogOfPlain | manual_processing/cog.py:138-139 | p + '.tif' becomes p + '-cog.tif' when p holds neither 'merged' nor '.tif' |
| Cog.BandSeparateCog | manual_processing/cog.py:233-256 | one gdal_translate and one make_cog result per band 1..count, in band order, with -a_nodata iff a nodata value is given |
| Cog.BandStem | manual_processing/cog.py:250 | each band file is stem + '_B0' + band + 'merged.tif' |
| Cog.BandCogName | manual_processing/cog.py:250-255 | each band's COG is named stem + '_B0' + band + '.tif', whether or not it was first expanded to 8 bits |
| Cog.BandCogNamesDistinct | manual_processing/cog.py:249-255 | different bands get different COG names |
| Difflib.FindLongestMatch | manual_processing/cog.py:109-110 | the match is the longest common block, ties broken toward the earliest start in the first string, then in the second |
| Difflib.GridBestIsLongest | manual_processing/cog.py:110 | the search over all start positions returns the longest common block with the earliest start |
| Difflib.LongestMatchUnique | manual_processing/cog.py:110 | the longest-match contract determines the match uniquely |
| Difflib.ZeroMatchIsOrigin | manual_processing/cog.py:110 | with an empty side the match is (0, 0, 0) |
| ReduceLandsat.Matching | manual_processing/reduce_landsat.py:142-143 | exactly the paths that hold both the prefix and the band tag, in input order |
| ReduceLandsat.GroupMembers | manual_processing/reduce_landsat.py:142-143 | a path is in a prefix's group iff it holds the prefix and band_sig + b + '.' for some listed band b |
| ReduceLandsat.GroupBandOrder | manual_processing/reduce_landsat.py:142 | the group lists the first bands' files before the later bands' files |
| ReduceLandsat.Partition | manual_processing/reduce_landsat.py:133-144 | the keys are the distinct texts before band_sig and each key maps to its band-ordered group; an empty band_sig is ValueError iff there is a path to split |
| ReduceLandsat.PartitionCovers | manual_processing/reduce_landsat.py:138-143 | every path with a listed band's tag is in the group of the text before its band_sig |
| ReduceLandsat.CombineBands | manual_processing/reduce_landsat.py:80-85 | gdalbuildvrt -separate into prefix + '.vrt', followed by the band files in order |
| ReduceLandsat.CombinedTifName | manual_processing/reduce_landsat.py:82-92 | the .tif made from a prefix's .vrt is prefix + '.tif' |
| ReduceLandsat.GdalBounds | manual_processing/reduce_landsat.py:98-99 | IndexError exactly when fewer than four bounds are given |
| ReduceLandsat.GdalBoundsIsGdalBox | manual_processing/reduce_landsat.py:99 | entries (0, 3, 2, 1) are gdal's -projwin order of the bounds as given, and for ordered bounds what shapely_to_gdal_box gives |
| ReduceLandsat.ScalePointAsWritten | manual_processing/reduce_landsat.py:107-108 | `kwargs.get` as written: the default only when the key is missing; a None is kept |
| ReduceLandsat.ScalePoint | manual_processing/reduce_landsat.py:107-108 | the intended default: a given integer is kept, and a missing or None point becomes the end of the input range |
| ReduceLandsat.CliLeavesNoneInScale | manual_processing/reduce_landsat.py:107-108 | as written a flag left out on the command line puts "None" in -scale; the corrected point gives the range ends |
| ReduceLandsat.ScaleArg | manual_processing/reduce_landsat.py:107-117 | the text a scale point becomes: as written a point passed as None is the text "None"; otherwise, and always as intended, the decimal text of ScalePoint |
| ReduceLandsat.CropAndRescale | manual_processing/reduce_landsat.py:87-120 | IndexError for short bounds, ValueError for an unknown dtype or a bit depth other than 8 or 16; otherwise gdal_translate to stem + '.tif' with crop options iff bounds are given, -ot Byte or UInt16, and -scale with the black and white points as ScaleArg renders them (as written or as intended, by asWritten) and the output range |
| ReprocessLandsat.FilterBands | manual_reprocessing/reduce_landsat.py:121-130 | prefix + 'band{b}.tif' for each band, in bandlist order, all among the files; FileNotFoundError iff one of them is missing |
| ReprocessLandsat.WithPrefix | manual_reprocessing/reduce_landsat.py:116 | exactly the files whose name contains the prefix |
| ReprocessLandsat.FilterBandsOfGroup | manual_reprocessing/reduce_landsat.py:116-118 | narrowing the files to the prefix's group first does not change what filter_bands returns |
| ReprocessLandsat.Partition | manual_reprocessing/reduce_landsat.py:110-119 | the keys are the distinct texts before 'band' and each maps to filter_bands of its group; FileNotFoundError iff some prefix lacks a band |
| ReprocessLandsat.PartitionGroupsComplete | manual_reprocessing/reduce_landsat.py:117-130 | each group holds exactly one input file per requested band, in bandlist order |
| ReprocessLandsat.ScaleOptions | manual_reprocessing/reduce_landsat.py:92-101 | 8 bits gives -ot Byte -scale 0 wp 0 255 and 16 bits -ot UInt16 -scale 0 wp 0 65535, wp being the white point's text |
| ReprocessLandsat.CropAndRescale | manual_reprocessing/reduce_landsat.py:78-106 | IndexError for short bounds; KeyError for a missing bit_depth or white_point; ValueError for a depth other than 8 or 16; otherwise gdal_translate with -ot Byte and -scale 0 wp 0 255, or UInt16 and 0 wp 0 65535 |
| ReduceTiles.DtypeBits | manual_processing/reduce_tiles.py:129 | integer dtypes have 8, 16, 32 or 64 bits; uint8 has 8 and uint16 has 16 |
| ReduceTiles.GetBitDepth | manual_processing/reduce_tiles.py:122-135 | no files is StopIteration; otherwise the common width, and it succeeds iff every dtype is the same with 8 or 16 bits, else ValueError |
| ReduceTiles.GetBitDepthOrderFree | manual_processing/reduce_tiles.py:129-130 | the result does not depend on which file is listed first |
| ReduceTiles.VrtMerge | manual_processing/reduce_tiles.py:83-88 | gdalbuildvrt -srcnodata into the output's .tif stem + '.vrt', followed by the input paths |
| ReduceTiles.BandArgs | manual_processing/reduce_tiles.py:107-108 | a '-b', str(b) pair per band, in bandlist order |
| ReduceTiles.BandOptions | manual_processing/reduce_tiles.py:105-110 | the band pairs, followed by -colorinterp red,green,blue iff there are exactly three bands |
| ReduceTiles.ResolveAsWritten | manual_processing/reduce_tiles.py:90-120 | fails (AttributeError, get_bounds does not exist) exactly when a geojson gives bounds; otherwise gdal_translate to stem + '.tif' with the band options |
| ReduceTiles.Resolve | manual_processing/reduce_tiles.py:90-120 | gdal_translate to stem + '.tif' with the band options and, when bounds are given, the -projwin crop; IndexError iff the bounds are short |
| ReduceTiles.MergeResolveName | manual_processing/reduce_tiles.py:85-102 | merging to stem.tif and resolving writes stem.tif again |
| ReduceTiles.ChangeBitDepth | manual_processing/reduce_tiles.py:137-152 | AssertionError iff either depth is not 8 or 16; otherwise gdal_translate from path + '-tmp' back to path, UInt16 iff the output depth is 16, scaling 0..2^in-1 onto 0..2^out-1 |
| ReduceTiles.Pow2Add | manual_processing/reduce_tiles.py:148-149 | powers of two add in the exponent (2^8 = 256, 2^16 = 65536) |
| ReduceTiles.PowersOfDepths | manual_processing/reduce_tiles.py:148-149 | 2^8 = 256 and 2^16 = 65536 |
| ReduceTiles.DepthChanges | manual_processing/reduce_tiles.py:78-79 | for each output, in order, exactly the `change_bit_depth` job that rewrites it in place from the input depth to the requested one |
| ReduceTiles.BuildImage | manual_processing/reduce_tiles.py:47-81 | the input depth error propagates, a requested depth outside {8, 16} is ValueError; with asWritten any area of interest is then AttributeError; otherwise mosaic, resolve, the colour-corrected copy iff a style is given, and a depth change of every output iff a depth is requested that differs from the input's; the resolve job is exactly the `resolve` job (with the -projwin crop of the bounds, none with asWritten) and each depth-change job is exactly `change_bit_depth`'s for its output |
| ReduceTiles.CropFindingWitness | manual_processing/reduce_tiles.py:112-116 | with an area of interest the crop as written fails with AttributeError while the corrected resolve crops to the area's bounds in gdal's corner order |
| Sentinel.Outpath | manual_processing/sentinel.py:39-40 | the path ends with level + the dates joined by '-' + 'TCI_' + zone + date + '.jp2' |
| Sentinel.DateOf | manual_processing/sentinel.py:34-36 | the year is date[:4]; month and day are date[4:6] and date[6:] with their leading zeros stripped |
| Sentinel.ZoneOf | manual_processing/sentinel.py:41-45 | zone[:2], zone[2:3] and zone[3:] put back together give the zone |
| Sentinel.GrabCommand | manual_processing/sentinel.py:46-49 | aws s3 cp from s3://sentinel-s2-<lower-cased level>/tiles/<utm zone>/<latitude band>/<grid square>/<year>/<month>/<day>/0/R10m/TCI.jp2 to the outpath with --request-payer, followed by --profile and the profile iff one is given |
| Sentinel.Tiles | manual_processing/sentinel.py:31-38 | no dates or no zones visit no tile |
| Sentinel.Row | manual_processing/sentinel.py:38 | one (date, zone) pair per zone, in zone order |
| Sentinel.TilesPrefix | manual_processing/sentinel.py:31-38 | the tiles of the first dates come first |
| Sentinel.TilesAt | manual_processing/sentinel.py:31-38 | date i's zone j follows the tiles of the dates before it |
| Sentinel.TilesLength | manual_processing/sentinel.py:31-38 | there are len(dates) * len(zones) tiles |
| Sentinel.ProducedConcat | manual_processing/sentinel.py:51 | appending the outputs of two runs of tiles gives the outputs of the joined run |
| Sentinel.DownloadTile | manual_processing/sentinel.py:39-51 | the tile's path, and its command iff the path is absent or redownload is set |
| Sentinel.DownloadDate | manual_processing/sentinel.py:32-51 | one outpath and command decision per zone of the date, in zone order |
| Sentinel.Download | manual_processing/sentinel.py:19-52 | one outpath per (date, zone), dates outer and zones inner, each with its command decision |
| Sentinel.DownloadOrder | manual_processing/sentinel.py:30-52 | outpath number i * len(zones) + j belongs to date i and zone j |
| Sentinel.DownloadCount | manual_processing/sentinel.py:30-52 | there are len(dates) * len(zones) outpaths |
| Sentinel.Fetch | manual_processing/sentinel.py:46-50 | the download command runs iff the path is absent or redownload is set, and it writes that path |
| Sentinel.Jp2ToGeotiff | manual_processing/sentinel.py:54-81 | the .tif is the text before '.jp2' + '.tif'; no conversion iff it exists and overwrite is off; the old .tif is removed iff it exists and overwrite is on; the .jp2 is removed iff it was converted and clean is set; tiling options iff a tile size is given |
| Sentinel.DownloadedTileTifName | manual_processing/sentinel.py:66 | a downloaded stem + '.jp2' converts to stem + '.tif' |
| LandsatThumbnails.AsDays | webapp/grabbers/landsat.py:99-102 | a number of days moves a midnight date back by the number itself when it is whole (a bool as 0 or 1) and by its ceiling when fractional, since `.date()` drops the time; anything else is not a number |
| LandsatThumbnails.StepsBackArithmetic | webapp/grabbers/landsat.py:99-102 | when dates round-trip through parsing, the k-th date is k * skip_days before the first |
| LandsatThumbnails.LandsatThumbnails.constructor | webapp/grabbers/landsat.py:45-55 | the specs are the defaults with write_styles set to the override and then updated with the keyword specs, so a user's write_styles wins |
| LandsatThumbnails.LandsatThumbnails.PrepScenes | webapp/grabbers/landsat.py:85-104 | starts at endDate if it is truthy, else today; holds max(1, N_images) dates (rounded up), each the AsDays of skip_days before the previous; KeyError or TypeError for missing or non-numeric specs; succeeds whenever the specs are present and numeric, a truthy endDate is a date string, and parsing reads back what iso writes |
| LandsatThumbnails.LandsatThumbnails.ColorProcessOfOutcome | webapp/grabbers/landsat.py:163-180 | one corrected image per selected style (as SelectKnown selects against the style dict), in order, then the raw path iff thumbnails is falsy (otherwise it is removed); KeyError for missing specs and the selection's TypeError; every output is the raw path or the product of a known style |
| LandsatThumbnails.LandsatThumbnails.ColorProcess | webapp/grabbers/landsat.py:163-180 | the style-by-style loop computes exactly ColorProcessOf, whose outcome is stated above |
| Grabber.SearchClean | grabber.py:124-127 | the first max_records results (all of them for None), cleaned, in search order; a negative bound is ValueError |
| Grabber.ImageGrabber.constructor | grabber.py:46-50 | the specs are the defaults updated with the keyword specs: a keyword wins, every other default is kept |
| Grabber.ImageGrabber.WellOverlapped | grabber.py:156-162 | true iff frac_area >= min_intersect; KeyError when min_intersect is missing and TypeError when it is not a number |
| Grabber.ImageGrabber.WellOverlappedMonotone | grabber.py:158 | more overlap is never rejected where less was accepted |
| Grabber.ImageGrabber.WellOverlappedThreshold | grabber.py:158 | with a numeric threshold the result is exactly frac_area >= min_intersect |
| Grabber.ImageGrabber.Fastforward | grabber.py:168-181 | returns the first remaining record acquired more than skip_days before the date, having consumed it and nothing after it; None when there is none and the iterator is exhausted |
| Grabber.ImageGrabber.IndexImages | grabber.py:213-223 | one index image per selected index, selected as SelectKnown does against the list of known indices; KeyError without landcover_indices; fails iff the selection fails |
| Grabber.ImageGrabber.IndexImagesInOrder | grabber.py:219-222 | index image k is computed from the k-th selected index, so every image is of a known index |
| Grabber.ImageGrabber.ColorImages | grabber.py:225-235 | one colour-corrected image per selected style, selected as SelectKnown does against the style dict (an unhashable member is TypeError); KeyError without write_styles; fails iff the selection fails |
| Grabber.ImageGrabber.ColorImagesInOrder | grabber.py:231-234 | colour image k is the k-th selected style applied to the image, so every image is of a known style |
| Grabber.ImageGrabber.Indexing | grabber.py:213-223 | the loop computes exactly the index images, in order |
| Grabber.ImageGrabber.Coloring | grabber.py:225-235 | the loop computes exactly the colour-corrected images, in order |
| Grabber.ImageGrabber.PhotoshopAsWrittenOfOutcome | grabber.py:199-211 | as written: KeyError without the specs; succeeds iff indexing (when asked for) and colouring do, else their error; the raw image is removed iff thumbnails is truthy, because the list of nested lists is never empty; otherwise it is kept last |
| Grabber.ImageGrabber.PhotoshopOfOutcome | grabber.py:199-211 | the intended flat list: KeyError without the specs; succeeds iff indexing (when asked for) and colouring do, else their error; the raw (rebanded) path is kept last unless thumbnails is truthy and some product was made, in which case it is removed |
| Grabber.ImageGrabber.PhotoshopOfOrder | grabber.py:199-211 | when indexing and colouring succeed, the result is exactly the index images, then the colour images of the rebanded image, then that image unless thumbnails is on and something was made, in which case it is the one removed |
| Grabber.ImageGrabber.PhotoshopAsWrittenOfOrder | grabber.py:199-211 | as written the result is one nested list of index images (when asked for), one nested list of colour images, then the image unless thumbnails is on, in which case it is removed |
| Grabber.ImageGrabber.PhotoshopAsWritten | grabber.py:199-211 | the step-by-step code computes the as-written products |
| Grabber.ImageGrabber.Photoshop | grabber.py:199-211 | the step-by-step code with flat appends computes the intended products |
| Grabber.ImageGrabber.PhotoshopFlattens | grabber.py:203-210 | both versions fail alike; flattened, they agree exactly unless thumbnails is on and no product was made |
| Grabber.ImageGrabber.PhotoshopOfMade | grabber.py:199-211 | every intended output is the rebanded image or the product of a known index or style |
| Grabber.ImageGrabber.PhotoshopNestingWitness | grabber.py:202-211 | with no index, no style and thumbnails on, the code as written deletes the image and returns one empty list, where the intended result keeps the image |
| Grabber.Flatten | grabber.py:203-205 | flattening loses at most one entry per nested list |
| Grabber.FlattenNested | grabber.py:203-205 | flattening the appended index and colour lists gives their concatenation |
| Grabber.FlattenConcat | grabber.py:203-210 | flattening distributes over concatenation |
| Json.SelectKnown | grabber.py:219-232 | the names x.lower() for x of the spec with x known: a list by its members, a dict by its keys, a string by its characters, all kept in order and lower-cased; other values TypeError; a list or dict member is skipped against a list of names and TypeError against a dict (unhashable), the only error of a list spec |
| Json.SelectKnownStrings | grabber.py:231-232 | on a list of strings the selection is filter-then-lower and cannot fail, against a list or a dict of names |
| Py.KeepKnownLowered | grabber.py:231-232 | the filter-then-lower selection is never longer than its input |
| Json.SelectKnownMembers | grabber.py:219-232 | every selected name is the lower-case form of a known name, whatever the shape of the spec |
| Py.KeepKnownLoweredMembers | grabber.py:231-232 | a name is selected iff it is the lower-case form of a known input name |
| Py.KeepKnownLoweredConcat | grabber.py:231-232 | the selection works element by element, so it distributes over concatenation |
| Py.KeepKnownLoweredIdempotent | grabber.py:231-232 | selecting twice is selecting once when the known names are lower case |
| Py.Before | manual_processing/cog.py:137-139 | `s.split(sep)[0]` is a prefix of s |
| Py.BeforeRoundTrip | manual_processing/cog.py:137 | with no separator in p, p + sep + rest splits back to p |
| Handlers.Filter | grabber_handlers.py:171-172 | the kept providers are exactly those of the list that were requested, with no repeats when the list has none |
| Handlers.FilterKeepsOrder | grabber_handlers.py:171-172 | kept providers keep the order of PROVIDER_CLASSES |
| Handlers.ProviderClasses | grabber_handlers.py:171-175 | ValueError iff neither digital_globe nor planet is requested; otherwise exactly the requested known providers, each once |
| Handlers.Overridden | grabber_handlers.py:189-191 | the specs after `update`: every key of either, the override winning where both have it |
| Handlers.OverriddenIdempotent | grabber_handlers.py:204-205 | overriding again with the same call-time specs changes nothing, and no call-time specs leave the handler's specs as they are |
| Handlers.Clamped | grabber_handlers.py:292-307 | a clamped side is at most max_size, at least min_size when the limits are ordered, unchanged when already within them, and always one of the side, the minimum or the maximum |
| Handlers.Clamp | grabber_handlers.py:294-305 | the step-by-step raise to min_size and cap at max_size computes the clamped side |
| Handlers.GrabberHandler.constructor | grabber_handlers.py:171-191 | the handler holds the given provider classes and image specs |
| Handlers.GrabberHandler.Rescaling | grabber_handlers.py:286-291 | no rescaling when bbox_rescaling is absent (KeyError caught); the factor when it is a number; TypeError otherwise |
| Handlers.GrabberHandler.SizeLimit | grabber_handlers.py:292-307 | no limit when the spec or the provider's entry is missing (KeyError caught); TypeError when the spec is not a dict or the limit not a number; otherwise the provider's limit |
| Handlers.GrabberHandler.ClampedSides | grabber_handlers.py:285-307 | succeeds iff rescaling and both limits can be read; both sides then end at most max_size, at least min_size when the limits are ordered, and unchanged when no spec applies |
| Handlers.GrabberHandler.Sides | grabber_handlers.py:285-307 | the step-by-step rescaling and clamping arrives at the clamped sides, or the same TypeError |
| Handlers.GrabberHandler.EnforceSizeSpecs | grabber_handlers.py:274-314 | the box unchanged when no size spec is given; otherwise a box with the same centre whose height and width are the clamped distances converted back to degrees, or the clamping's TypeError |
| Handlers.NewGrabberHandler | grabber_handlers.py:162-191 | ValueError iff no known provider is requested; otherwise a new handler with the requested providers and the file specs updated by the keyword specs |
| Handlers.CheckForImages | grabber_handlers.py:401-406 | true iff some location has images and every location before it is a dict; false iff every location is a dict without images; otherwise AttributeError |
| Handlers.Annotated | grabber_handlers.py:439-451 | succeeds iff the feature and its properties are dicts and its images a list; the images then become the old images followed by the pulled records, and every other key of the feature and of its properties is kept |
| Handlers.FailedPullKeepsImages | grabber_handlers.py:447-451 | a failed pull leaves the feature's images as they were |
| Handlers.AnnotatedTwice | grabber_handlers.py:451 | two pulls append their records in order |
| Handlers.PullForGeojsonAsWritten | grabber_handlers.py:438-451 | succeeds iff every feature can be annotated and no feature is reached before any box was set; each feature then gets its pulled records; an unreadable first geometry raises UnboundLocalError |
| Handlers.PullForGeojson | grabber_handlers.py:438-451 | succeeds iff every feature can be annotated; each feature then gets its own pulled records, none for a failed pull |
| Dg.Str | webapp/grabbers/dg.py:125-126 | a string source is formatted as itself and a non-negative int as its decimal digits |
| Dg.ToInt | webapp/grabbers/dg.py:128 | `int()` keeps an int, truncates a float toward zero, and fails exactly on None, a list, a dict or a string that is not all decimal digits |
| Dg.Items | webapp/grabbers/dg.py:125-126 | only a list or a string can be iterated: a list gives its members, a string its one-character strings |
| Dg.SensorFilter | webapp/grabbers/dg.py:125-126 | "(" + the sensorPlatformName clauses of the sources, in order, joined by " OR " + ")" |
| Dg.BaseFilters | webapp/grabbers/dg.py:125-128 | KeyError without image_source; succeeds iff the sources can be iterated and clouds can be made an int; then exactly the sensor filter and the cloud filter |
| Dg.BuildSearchFiltersAsWritten | webapp/grabbers/dg.py:123-132 | as written, filters come back only when offNadirAngle is falsy; a truthy one raises IndexError and a missing one KeyError |
| Dg.BuildSearchFilters | webapp/grabbers/dg.py:123-132 | as intended (see ## Findings): the two base filters, followed by an offNadirAngle clause iff the angle spec is truthy; with a truthy spec it succeeds iff the spec iterates to exactly two values, and the clause is 'offNadirAngle', the first value and the second joined by spaces; a non-iterable spec gives TypeError and any other count ValueError; ('<', 10) gives 'offNadirAngle < 10' |
| Dg.CloudFilterRoundTrip | webapp/grabbers/dg.py:128 | the cloud bound reads back from the second filter as the clouds spec |
| Dg.OffNadirWitness | webapp/grabbers/dg.py:129-131 | an offNadirAngle pair makes the code as written raise IndexError where the intended filters carry 'offNadirAngle < 10' |
| Dg.BandMapKeys | webapp/grabbers/dg.py:77-80 | BANDMAP has an entry exactly for 4- and 8-band images |
| Dg.Bands | webapp/grabbers/dg.py:225-227 | KeyError unless the image has 4 or 8 bands; otherwise the first 3 BANDMAP bands, or all 4 with landcover indices, each a distinct band of the image |
| Dg.Filename | webapp/grabbers/dg.py:236-241 | header + identifier + '_' + timestamp + 'bbox' + the four rendered bounds joined by '_' + '.tif' |
| Dg.FilenameDeterminesId | webapp/grabbers/dg.py:239-240 | two catalog ids of equal length that give the same file name are the same id |
| Dg.DgGrabber.constructor | webapp/grabbers/dg.py:100-103 | the grabber holds the given ImageGrabber template |
| Dg.DgGrabber.Projection | webapp/grabbers/dg.py:201-207 | KeyError iff override_proj is missing; a truthy override is returned as is; otherwise 'EPSG:' followed by digits that read back as the UTM code of the centroid |
| Dg.DgGrabber.Take | webapp/grabbers/dg.py:189-190 | a kept record becomes the next one-record scene, and the loop goes on at its resume point (none past the last record); the loop invariant is kept |
| Dg.DgGrabber.ResumePoint | webapp/grabbers/dg.py:191-195 | without skip_days the loop goes on at the next record; with skip_days at the `_fastforward` target, the first later record more than skip_days older than the taken one (the end when there is none); it fails, with TypeError, exactly when skip_days is truthy but not a number and a later record exists |
| Dg.DgGrabber.Visit | webapp/grabbers/dg.py:177-195 | one step of the scene loop fails exactly when min_intersect is missing (KeyError) or not a number (TypeError), or the record is kept, is not the last, and skip_days is truthy but not a number (TypeError); otherwise it takes the record iff it is kept, keeps the loop invariant and moves strictly forward |
| Dg.DgGrabber.Round | webapp/grabbers/dg.py:176-195 | a round of the loop fails only where the specs make the whole loop fail, and otherwise keeps the invariant that every record passed so far got through the specs |
| Dg.DgGrabber.Scan | webapp/grabbers/dg.py:176-195 | for a numeric N_images, the loop fails exactly when a record is looked at (there is one and N_images is above 0) and min_intersect is missing or not a number, or skip_days is truthy but not a number and a record other than the last is kept; otherwise it stops where records or room for scenes run out |
| Dg.DgGrabber.NoScanFailure | webapp/grabbers/dg.py:179-194 | a loop that got through to its end with a truthy non-numeric skip_days kept no record before the last |
| Dg.DgGrabber.WalkAt | webapp/grabbers/dg.py:177-194 | along the scan, every pick is the first kept record since the previous resume point (the start for the first), and the scan resumes after it at the next record or at the fast-forward target |
| Dg.DgGrabber.SelectScenes | webapp/grabbers/dg.py:174-199 | KeyError without N_images, TypeError for a non-numeric one when there is a record; for a numeric N_images it fails exactly as the loop does (KeyError or TypeError for min_intersect, TypeError for skip_days); the scenes are kept records in search order, no more than N_images; each scene is the first kept record from where the scan stood, and after each the scan goes on at the next record, or with skip_days at the fast-forward target; unless N_images was reached, no kept record after the last resume point was left out; without skip_days every kept record up to the last scene was taken, and all were when the loop ran out of records |
| Dg.DgGrabber.CompileScenes | webapp/grabbers/dg.py:160-199 | the specs gain 'proj' set to the projection (KeyError and no change without override_proj); then as the scene loop: KeyError without N_images, TypeError for a non-numeric one when there is a record, and for a numeric one failure exactly when min_intersect or a truthy skip_days stops the loop; the scenes are kept records in search order along the same walk, no more than N_images, each the first kept one from its resume point; nothing kept after the last resume point left out unless N_images was reached, and without skip_days every kept record up to the last scene taken |
| Dg.SpacedApart | webapp/grabbers/dg.py:191-194 | on records sorted newest first, consecutive scenes taken with skip_days lie in increasing positions and are more than skip_days apart |
| Planet.Times100 | planet_grabber.py:170 | `clouds *= 100` scales an int or a float by 100 and fails (TypeError) exactly on None and dicts |
| Planet.KeyMapInverse | planet_grabber.py:89-99 | KEYMAP is one-to-one onto the standard names, so renaming loses no property, and no standard name clashes with catalogID, thumbnail or full_record |
| Planet.RenamedKeepsProperties | planet_grabber.py:168-169 | every known property is kept under its standard name, and nothing else is produced |
| Planet.Clean | planet_grabber.py:163-171 | KeyError without id, links or cloud_cover; TypeError when the cloud cover cannot be multiplied; otherwise catalogID is the id, thumbnail and full_record the links, and clouds the cloud cover times 100 |
| Planet.CleanKeepsProperties | planet_grabber.py:165-170 | a clean record holds exactly the three link keys and the standard names of the known properties, each property other than the cloud cover unchanged |
| Planet.Cleaned | planet_grabber.py:165-169 | before the scaling, the record holds exactly the link keys and the renamed properties |
| Planet.CleanedKeepsProperties | planet_grabber.py:168-169 | every known property survives cleaning under its standard name |
| Planet.WithKey | planet_grabber.py:210-215 | the records grouped under a key are exactly the records with that satellite id and item type |
| Planet.Group | planet_grabber.py:204-216 | the groups hold a key exactly for each (satellite id, item type) that occurs, and each key's list is its records in catalog order |
| Planet.GroupOfDay | planet_grabber.py:200-216 | every group of one day's records is a scene of that day |
| Planet.RunEnd | planet_grabber.py:206-217 | a day's records run up to the first record of another date, or to the end |
| Planet.PreferredFrom | planet_grabber.py:250-253 | the group of the first item type in KNOWN_ITEM_TYPES that the satellite delivered, none iff it delivered none |
| Planet.Preferreds | planet_grabber.py:249-254 | one scene per satellite that delivered a known item type, each its preferred group |
| Planet.PreferredsAreGroups | planet_grabber.py:252 | every kept scene is one of the groups |
| Planet.NewestFirstPast | planet_grabber.py:206-221 | in the newest-first order, a record past a day's run is of an older day |
| Planet.LastContaining | planet_grabber.py:333-335 | the last path containing the id, none iff no path contains it |
| Planet.ReorderOf | planet_grabber.py:329-336 | IndexError iff a record beyond the number of paths has its id in a path; otherwise a list as long as paths whose slot n holds a path containing record n's id, None iff there is none |
| Planet.ReorderUnique | planet_grabber.py:332-335 | a record whose id lies in exactly one path gets that path |
| Planet.RemoveFirst | planet_grabber.py:138 | `remove` drops exactly one occurrence of the value |
| Planet.WithFourBand | planet_grabber.py:139-140 | afterwards PSScene4Band is listed, once if it was not before, and nothing else changes |
| Planet.SwappedItemTypes | planet_grabber.py:137-140 | a list without PSScene3Band is unchanged; a string or dict containing it is AttributeError; any other non-container is TypeError |
| Planet.SwappedItemTypesCounts | planet_grabber.py:137-140 | one PSScene3Band fewer, PSScene4Band present but never added twice, every other item type untouched |
| Planet.ValidatedSpecs | planet_grabber.py:130-140 | unchanged without landcover indices; with them asset_type becomes 'analytic' and the item types are swapped; KeyError, AttributeError or TypeError otherwise; no other spec changes |
| Planet.PlanetGrabber.constructor | planet_grabber.py:108-109 | the grabber holds the given ImageGrabber template |
| Planet.PlanetGrabber.OverlapFiltered | planet_grabber.py:228-235 | exactly the groups whose overlap is well overlapped are kept, with their records; fails as `_well_overlapped` does once there is a group |
| Planet.PlanetGrabber.OverlapFilteredThreshold | planet_grabber.py:233-234 | with a numeric min_intersect a group is kept iff its overlap reaches it |
| Planet.PlanetGrabber.FilterByOverlap | planet_grabber.py:228-235 | the loop over the groups arrives at the overlap-filtered groups |
| Planet.PlanetGrabber.OverlapFilteredAsWritten | planet_grabber.py:232-233 | as written, any group makes the overlap filter raise TypeError; only no groups pass |
| Planet.PlanetGrabber.OverlapAsWrittenWitness | planet_grabber.py:232-233 | a non-empty catalog always has a group that the code as written rejects with TypeError, where passing the lists succeeds |
| Planet.PlanetGrabber.FilterCopies | planet_grabber.py:237-254 | the satellites are visited once each, and the scenes are their preferred groups in that order |
| Planet.PlanetGrabber.FilterCopiesPreferred | planet_grabber.py:240-254 | kept scenes are groups, and every satellite with a known item type gets one |
| Planet.PlanetGrabber.GroupDay | planet_grabber.py:191-222 | the groups are those of the base record's day run; the next base is None at the end of the catalog, otherwise as NextBase states |
| Planet.PlanetGrabber.DayRun | planet_grabber.py:204-217 | the loop over the day stops at the end of the day run, the first record of another day or the end, with exactly that run's records grouped by (satellite id, item type) |
| Planet.PlanetGrabber.AddToDay | planet_grabber.py:209-215 | a same-day record joins its key's group, giving the groups of the run one record longer |
| Planet.PlanetGrabber.GroupOne | planet_grabber.py:204 | the base record alone makes a single group under its key |
| Planet.PlanetGrabber.GroupDayOutcome | planet_grabber.py:216-220 | grouping a day fails, with TypeError, exactly when skip_days is truthy but not a number and a record of another day follows |
| Planet.PlanetGrabber.FilterOutcome | planet_grabber.py:228-235 | filtering a day's groups by overlap fails exactly when min_intersect is missing (KeyError) or not a number (TypeError) |
| Planet.PlanetGrabber.GroupSnoc | planet_grabber.py:212-215 | adding a record appends it to its key's list, or starts that list |
| Planet.PlanetGrabber.NextBase | planet_grabber.py:217-221 | the first record of another day is the next base, unless skip_days is set and that record is less than skip_days older than the base day: then the first later record more than skip_days older than the base day, or None; TypeError when skip_days is not a number |
| Planet.PlanetGrabber.DayScenes | planet_grabber.py:181-183 | as intended, with the corrected overlap filter (see ## Findings): the day fails exactly when min_intersect is missing (KeyError) or not a number (TypeError), or skip_days is truthy but not a number and a later day follows (TypeError); otherwise a day's scenes are exactly the preferred groups, one per satellite in some visiting order, of the day run's groups that overlap the box well; each is a compiled scene of that day, and the next base is the one NextBase picks, past the day run |
| Planet.PlanetGrabber.KeptScenesAreCompiled | planet_grabber.py:181-183 | every scene kept from a day's groups is a compiled scene of that day |
| Planet.PlanetGrabber.TakeScenes | planet_grabber.py:184-188 | the day's scenes are appended in order, stopping after the first with skip_days and once N_images are held |
| Planet.PlanetGrabber.SkipStep | planet_grabber.py:184-188 | with skip_days a day adds at most one scene, older than the ones before |
| Planet.PlanetGrabber.CompileScenes | planet_grabber.py:173-189 | as intended, with the corrected overlap filter (see ## Findings): no scenes for an empty catalog; KeyError or TypeError for a missing or non-numeric N_images; for a numeric N_images it fails exactly when N_images is above 0 and the first day fails (min_intersect missing or not a number, or a truthy non-numeric skip_days with a later day), and then no later day can fail; otherwise the days visited are the first record's and then each next base in turn, and the scenes are a prefix of what those days gather (all of a day's scenes, or its first with skip_days), all of it unless N_images is reached, in which case the walk went on until no next day was left; never more than N_images scenes, each a well-overlapped group of one day; with skip_days at most one scene per day, in strictly older days |
| Planet.PlanetGrabber.ValidateLandcoverSpecs | planet_grabber.py:130-140 | the specs become the validated specs, and it raises as they say |
| Planet.PlanetGrabber.Reorder | planet_grabber.py:329-336 | the loops over records and paths arrive at ReorderOf |
| Planet.PlanetGrabber.Reproject | planet_grabber.py:349-357 | one path per (path, record) pair; exactly the images whose record has another EPSG code are reprojected to the target, the rest are kept |
| PlanetWebapp.CheckItems | webapp/grabbers/planet_grabber.py:143-148 | passes iff the band map offers the asset type for every listed item type; otherwise KeyError, or TypeError for an unhashable item type |
| PlanetWebapp.ValidateAssetType | webapp/grabbers/planet_grabber.py:140-148 | KeyError without asset_type or item_types; passes iff item_types can be iterated and every member offers the asset type in BANDMAP; a non-iterable is TypeError |
| PlanetWebapp.AnalyticOffered | webapp/grabbers/planet_grabber.py:72-92 | every item type in BANDMAP offers the analytic asset |
| PlanetWebapp.HasThreeBand | webapp/grabbers/planet_grabber.py:130 | the membership test succeeds exactly on lists, strings and dicts, and on a list says whether PSScene3Band is listed |
| PlanetWebapp.FourBandSwap | webapp/grabbers/planet_grabber.py:132-133 | the same number of item types, one PSScene3Band replaced by PSScene4Band at the end |
| PlanetWebapp.TweakSpecs | webapp/grabbers/planet_grabber.py:128-138 | with PSScene3Band listed, the item types become the swapped list without duplicates (the swap stays when deduplication fails on an unhashable member); a string or dict is AttributeError; asset_type becomes 'analytic'; no other spec changes |
| PlanetWebapp.TweakedValidates | webapp/grabbers/planet_grabber.py:118-120 | a successful tweak of known item types always passes the asset type check |
| PlanetWebapp.SwapMembers | webapp/grabbers/planet_grabber.py:132-133 | the swap brings in no item type other than PSScene4Band |
| PlanetWebapp.WebappPlanetGrabber.constructor | webapp/grabbers/planet_grabber.py:114-117 | the grabber holds the given Planet grabber and its specs |
| PlanetWebapp.WebappPlanetGrabber.TweakLandcoverSpecs | webapp/grabbers/planet_grabber.py:128-138 | the grabber's specs change as the tweak states |
| PlanetWebapp.WebappPlanetGrabber.Initialize | webapp/grabbers/planet_grabber.py:118-120 | KeyError without landcover_indices; with truthy indices the specs become those the tweak leaves, its error is returned, and on its success the result is the asset type check of the tweaked specs; without indices the specs are unchanged and only checked |
| PlanetWebapp.WebappPlanetGrabber.SliceBound | webapp/grabbers/planet_grabber.py:208 | only an int or a bool can bound the slice, with the value N_images compares as |
| PlanetWebapp.WebappPlanetGrabber.AddDayScenes | webapp/grabbers/planet_grabber.py:204-208 | the day's scenes are appended in order, only the first with skip_days, and cut to N_images; TypeError when N_images cannot bound a slice |
| PlanetWebapp.WebappPlanetGrabber.CompileScenes | webapp/grabbers/planet_grabber.py:193-209 | with the web app's overlap calls taking their records and ids spread (see the webapp/grabbers/base.py line under ## Left out): no scenes for an empty catalog; KeyError or TypeError for a missing or non-numeric N_images; for a numeric N_images any failure needs N_images above 0, a failing first day fails the call with that day's error, and any other failure is the TypeError of a slice bound that is neither int nor bool; otherwise the days visited are the first record's and then each next base in turn, and the scenes are a prefix of what those days gather (all of a day's scenes, or its first with skip_days), all of it unless N_images is reached, in which case the walk went on until no next day was left; never more than N_images scenes (the slice bound when N_images is an int or bool), each a well-overlapped group of one day; with skip_days at most one scene per day, in strictly older days |
| PlanetWebapp.WebappPlanetGrabber.BuildFilename | webapp/grabbers/planet_grabber.py:328-332 | succeeds iff file_header and asset_type are strings; the name is file_header, the id, '_', the asset type and '.tif' |
| PlanetWebapp.WebappPlanetGrabber.FilenameInjective | webapp/grabbers/planet_grabber.py:330-331 | different catalog ids get different file names |
| PlanetWebapp.WebappPlanetGrabber.Reorder | webapp/grabbers/planet_grabber.py:363-368 | the loop over the records arrives at ReorderFirstOf |
| PlanetWebapp.FirstContaining | webapp/grabbers/planet_grabber.py:367 | the first path containing the id, none iff no path contains it |
| PlanetWebapp.ReorderFirstOf | webapp/grabbers/planet_grabber.py:363-368 | StopIteration iff some record's id is in no path; otherwise one path per record, each containing that record's id |
| PlanetWebapp.ReorderFirstKeepsOrdered | webapp/grabbers/planet_grabber.py:363-368 | paths already in record order, each holding only its own record's id, come back unchanged |

## Left out

- Network, cloud and database clients are not modelled: gbdxtools, the Planet API, aiohttp, Firebase put and get, cloud storage buckets and urthecast. Their results are parameters: the catalog records, whether `CatalogImage` hands over a scene, what a pull returns for a feature, and the Firebase data.
- Asynchronous scheduling and polling are not modelled: `pull`, `loop`, `_download`, `_activate`, `_write`, `grab_scene`, `_retrieve`, `pull_for_wire` and `pull_for_story`. The point of these is concurrency and waiting on remote services.
- GDAL, rasterio and file I/O are not modelled: `gdal_routines`, `write_mask`, `build_rgb`, `expand_histogram`, `_get_histogram_cuts`, `_extract_histogram`, `_mosaic` and `_ensure_image_format`. A subprocess call is the argument list returned in a `Job`. File removals are modelled only where they decide what is returned: `photoshop` and `color_process` report the image they delete, and `jp2_to_geotiff` returns a flag for each of its two removals. The `clean` removals of merge, rio_merge and make_cog, the `os.remove(vrtfile)` of reduce_tiles resolve, and the rename and removal in reduce_tiles change_bit_depth are not modelled. Whether a file exists is an input.
- Floating-point geometry is a parameter: footprint overlaps, `geobox.get_side_distances`, `bbox_from_scale`, `square4326_bbox_from_scale`, `bbox_from_geometries`, `viewport_to_shapely_box` and the `latitude_from_dist`/`longitude_from_dist` conversions. Coordinates are exact reals, and the `{:.4f}` rendering of a bound is a parameter.
- Timestamps are reduced to day numbers. `dateutil` parsing, dg `_enforce_date_format` and the ISO rendering of dates are not modelled.
- Catalog records are reduced to the fields the logic reads. A raw Planet record appears only in `Planet.Clean`.
- The search requests are not modelled: dg `_search` and `_read_footprint`, and the Planet `_build_search_filters`, `_search` and `_search_id`. The newest-first order that `_search` sorts by is an assumption of the lemmas that need it (`NewestFirst`). dg `_clean` is not modelled either.
- Printing and logging are left out.
- webapp/grabbers/base.py is not part of this model. The web app grabbers are modelled on the `ImageGrabber` template of grabber.py (`_well_overlapped`, `_fastforward`, `_get_overlap`), except that the web app's `_get_overlap` is taken to accept its records spread, `_get_overlap(bbox, *records)`: webapp/grabbers/dg.py:178 passes one record and webapp/grabbers/planet_grabber.py:252-253 spreads a group, and grabber.py's `_get_overlap(bbox, records)` would reject both. Likewise the web app's `_well_overlapped(frac_area, *ids)` call (webapp/grabbers/planet_grabber.py:253) is taken to accept the spread ids; under grabber.py's `_well_overlapped` signature, which takes one id argument after the area, it would raise TypeError for any group of two or more records.
- Py.Enumerate: the iteration order of a Python set or dict key view is not modelled. The contract holds for every order.
- Dg.ToInt: a string holding a sign, surrounding whitespace or digit underscores is a ValueError here, although `int()` accepts it.
- Dg.Items: a dict given as image_source is treated as not iterable. Python would iterate its keys in insertion order.
- Dg.DgGrabber.constructor: it holds only the `ImageGrabber` template. The search filters built at construction are `Dg.BuildSearchFilters`, and the date reformatting is not modelled.
- Handlers.GrabberHandler.EnforceSizeSpecs: the side distances and the conversion back to degrees are parameters, so the contract relates the new box to those values rather than to kilometres on the ground.
- Handlers.PullForGeojson: the `geojsons['Features']` lookup, the JSON dump to file, and the in-place aliasing of the feature dicts are not modelled. The features are values, and the updated list is returned.
- PlanetWebapp.WebappPlanetGrabber.TweakLandcoverSpecs: the item type list is changed in place in the source. Here the specs map is computed as a value and then written back, so an alias to the list held elsewhere is not modelled.
- Sentinel.Download: a file's existence is checked against the files present when the call starts. If a (date, zone) pair repeats within one call, the file made by its first pass is not seen by the later ones.
- Grabber.ImageGrabber.ColorImages: postprocessing/color.py is not part of this model, so the known styles (`color.STYLES`) are a parameter.
- The landcover and colour computations (`landcover.compute_index`, `color_correct`) are parameters, as is `gdal_routines.reband`.
- grabber.py's `prep_scenes` and `pull_by_id` are not modelled. Both pass `(bbox, records)` to `_compile_scenes(self, records, bbox)`, so the two arrive swapped; the compile_scenes models take the records as records.
- Cog.GetNodata: header values compare as Json values. numpy compares 0 and 0.0 as equal (and returns the converted value), and a NaN nodata, which Json here cannot hold, never equals itself, so all-NaN headers raise ValueError in the source.
- Difflib.FindLongestMatch: SequenceMatcher's default autojunk heuristic is not modelled. When the second string has 200 or more characters, characters making up more than 1% of it are junk to the real matcher, and its match can differ.
- Json.SelectKnown: a dict spec's keys are taken in lexicographic order. Python takes them in the order of the JSON text, which the map-based Json value does not keep.
- LandsatThumbnails.AsDays: timedelta rounds a fractional day count to whole microseconds, so a count within half a microsecond of a whole number moves back by that whole number rather than by the ceiling. The time of day of a parsed endDate is not modelled either.
- Py.Lower: only ASCII letters are lowered; `str.lower` lowers every Unicode letter.
- Sentinel.GrabCommand: the command template is split on whitespace after formatting, so a field or path holding whitespace would become several words. The model keeps each field as one word, and likewise for the `rio convert` command of Sentinel.Jp2ToGeotiff.

## Findings

| source | as written | input that shows it | evidently intended | confidence | as-written member | corrected member |
|---|---|---|---|---|---|---|
| manual_processing/cog.py:111 | the common part is sliced as `path_a[match.a:match.size]`, whose end ignores the match's start | paths "xab" and "ab" give "a" | slice `match.size` characters from `match.a`, giving "ab" | not executed | Cog.GetLcssAsWritten, Cog.LcssAsWrittenTruncates | Cog.GetLcss, Cog.LcssTwoIsLongest |
| manual_processing/cog.py:31-49 | the keyword argument `rio_merge=False` shadows the module function `rio_merge`, so `rio_merge(geotiffs, ...)` calls a bool | merge(paths, nodata=0, rio_merge=True) raises TypeError | hand the work to the module's rio_merge | not executed | Cog.MergeAsWritten, Cog.RioRouteShadowed | Cog.Merge |
| webapp/grabbers/dg.py:129-131 | the offNadirAngle spec fills a format with two fields as one argument | offNadirAngle ("<", 10) raises IndexError, and so does every truthy value | unpack the (relation, angle) pair into the two fields: 'offNadirAngle < 10' | not executed | Dg.BuildSearchFiltersAsWritten, Dg.OffNadirWitness | Dg.BuildSearchFilters |
| manual_processing/reduce_landsat.py:107-108 | `kwargs.get` defaults the white and black points only when the key is missing, but the command line always passes them, as None when the flag is omitted | running without --white_point puts "None" into -scale | a missing or None point defaults to the end of the input range | not executed | ReduceLandsat.ScalePointAsWritten, ReduceLandsat.CliLeavesNoneInScale | ReduceLandsat.ScalePoint |
| grabber.py:203-210 | `append` adds the lists from `_indexing` and `_coloring` as single entries, so the output is nested and never empty | no landcover index, no style and thumbnails on: the raw image is deleted and `[[]]` comes back | a flat list of products, keeping the raw image when none was made | not executed | Grabber.ImageGrabber.PhotoshopAsWrittenOf, Grabber.ImageGrabber.PhotoshopNestingWitness | Grabber.ImageGrabber.PhotoshopOf |
| manual_processing/reduce_tiles.py:112-116 | the crop calls `reduce_landsat.get_bounds`, which no module defines | any -g geojson raises AttributeError | crop to the area's bounds in GDAL's corner order, as reduce_landsat's own main does | not executed | ReduceTiles.ResolveAsWritten, ReduceTiles.CropFindingWitness | ReduceTiles.Resolve |
| planet_grabber.py:232-233 | a group's records are spread into `_get_overlap(bbox, records)` and `_well_overlapped(frac_area, IDs)`, which each take one list | any catalog with a record raises TypeError: a lone record dict is iterated by its keys, and more records are too many arguments | pass the group's list and its list of ids (the web app code, webapp/grabbers/planet_grabber.py:252-253 and webapp/grabbers/dg.py:178, calls its own base class with spread records, which suggests that signature there) | not executed | Planet.PlanetGrabber.OverlapFilteredAsWritten, Planet.PlanetGrabber.OverlapAsWrittenWitness | Planet.PlanetGrabber.OverlapFiltered |
| grabber_handlers.py:443-450 | the except clause logs `bbox.bounds`, which is unbound when no box has been made yet | a collection whose first feature has no readable geometry raises UnboundLocalError and aborts every feature | log the failure and give the feature no new images | not executed | Handlers.PullForGeojsonAsWritten | Handlers.PullForGeojson |
