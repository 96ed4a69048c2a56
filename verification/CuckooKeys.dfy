// Keys for HashMapCuckoo (src/hashmap_cuckoo.hpp) with given slots at the capacity 4096: the
// least 64-bit keys of which the code's own hash functions make a chain (CuckooChains).
module CuckooKeys {
  import opened CuckooHashers

  ghost predicate Has(key: bv64, first: nat, second: nat) {
    FirstHash(key) % 4096 == first && SecondHash(key) % 4096 == second
  }

  // Keys with consecutive slots, from a in the first table and from b in the second.
  ghost predicate Follow(keys: seq<bv64>, a: nat, b: nat) {
    forall i :: 0 <= i < |keys| ==> Has(keys[i], a + i, b + i)
  }

  // Eight of them, one by one.
  ghost predicate Eight(keys: seq<bv64>, a: nat, b: nat) {
    && |keys| == 8
    && FirstHash(keys[0]) % 4096 == a && FirstHash(keys[1]) % 4096 == a + 1 && FirstHash(keys[2]) % 4096 == a + 2
    && FirstHash(keys[3]) % 4096 == a + 3 && FirstHash(keys[4]) % 4096 == a + 4 && FirstHash(keys[5]) % 4096 == a + 5
    && FirstHash(keys[6]) % 4096 == a + 6 && FirstHash(keys[7]) % 4096 == a + 7
    && SecondHash(keys[0]) % 4096 == b && SecondHash(keys[1]) % 4096 == b + 1 && SecondHash(keys[2]) % 4096 == b + 2
    && SecondHash(keys[3]) % 4096 == b + 3 && SecondHash(keys[4]) % 4096 == b + 4 && SecondHash(keys[5]) % 4096 == b + 5
    && SecondHash(keys[6]) % 4096 == b + 6 && SecondHash(keys[7]) % 4096 == b + 7
  }

  lemma EightFollow(keys: seq<bv64>, a: nat, b: nat)
    requires Eight(keys, a, b)
    ensures Follow(keys, a, b)
  {
    hide FirstHash, SecondHash, MixHash;
    forall i | 0 <= i < |keys| ensures Has(keys[i], a + i, b + i) {
      if i == 0 {} else if i == 1 {} else if i == 2 {} else if i == 3 {} else if i == 4 {} else if i == 5 {} else if i == 6 {}
    }
  }

  lemma LoneKeys()
    ensures Has(66658560, 256, 256) && Has(7450624, 0, 257)
  {
  }

  // ---- the slots k and k ----

  function Own0(): seq<bv64> { [5251072, 10502145, 11145218, 33931267, 21348356, 58359813, 8048646, 15687687] }
  function Own1(): seq<bv64> { [33890312, 17469449, 5881866, 21254155, 9379852, 16097293, 3686414, 53051407] }
  function Own2(): seq<bv64> { [8626192, 56770577, 27574290, 17821715, 30908436, 8962069, 7999510, 3764247] }
  function Own3(): seq<bv64> { [9314328, 33574937, 19599386, 14807067, 3792924, 2236445, 5341214, 20271135] }
  function Own4(): seq<bv64> { [77770784, 6291489, 32002082, 33456163, 2756644, 19984421, 28028966, 4362279] }
  function Own5(): seq<bv64> { [31801384, 15224873, 9306154, 44044331, 1101868, 38404141, 8196142, 13312047] }
  function Own6(): seq<bv64> { [23343152, 9875505, 8847410, 16101427, 15814708, 262197, 23302198, 516151] }
  function Own7(): seq<bv64> { [62849080, 3797049, 8630330, 4931643, 42143804, 10682429, 41910334, 49311807] }
  function Own8(): seq<bv64> { [24715328, 1933377, 31076418, 159811, 4886596, 5492805, 29454406, 7163975] }
  function Own9(): seq<bv64> { [10244168, 4558921, 6189130, 1953867, 29155404, 21196877, 9363534, 1138767] }
  function Own10(): seq<bv64> { [17862736, 48635985, 5886034, 2916435, 17301588, 18612309, 573526, 622679] }
  function Own11(): seq<bv64> { [7573592, 2904153, 46973018, 11731035, 69808220, 10203229, 2879582, 9941087] }
  function Own12(): seq<bv64> { [2134112, 25919585, 6443106, 77923, 18546788, 2076773, 37425254, 21446759] }
  function Own13(): seq<bv64> { [512104, 7413865, 27664490, 9375851, 8962156, 14954605, 8175726, 1609839] }
  function Own14(): seq<bv64> { [10621040, 1990769, 2121842, 14360691, 17379444, 4092021, 45899894, 28344439] }
  function Own15(): seq<bv64> { [12408, 1974393, 5664890, 6516859, 32985212, 2605181, 21962878, 23044223] }
  function Own16(): seq<bv64> { [34394240, 3264641, 9871490, 3580035, 24719492, 18747525, 63619206, 50319495] }
  function Own17(): seq<bv64> { [48681096, 3018889, 19734666, 893067, 700556, 61358221, 864398, 14327951] }
  function Own18(): seq<bv64> { [8736912, 17219729, 1314962, 19026067, 4976788, 41021589, 25182358, 47947927] }
  function Own19(): seq<bv64> { [499864, 8138905, 9093274, 2523291, 18862236, 11489437, 16851102, 13234335] }
  function Own20(): seq<bv64> { [31121568, 1347745, 30625954, 11657379, 9408676, 6623397, 19943590, 39755943] }
  function Own21(): seq<bv64> { [34963624, 30146729, 53067946, 14991531, 5103788, 15421613, 929966, 8843439] }
  function Own22(): seq<bv64> { [28889264, 2879665, 21905586, 16748723, 5697716, 29167797, 6176950, 1175735] }
  function Own23(): seq<bv64> { [8868024, 31572153, 39985338, 3616955, 360636, 62329021, 2367678, 14512319] }
  function Own24(): seq<bv64> { [17920192, 1884353, 4976834, 22356163, 23904452, 4186309, 209094, 61513927] }
  function Own25(): seq<bv64> { [1028296, 12382409, 6394058, 13820107, 39968972, 18223309, 4559054, 35446991] }
  function Own26(): seq<bv64> { [2175184, 5255377, 17072338, 323795, 6303956, 954581, 58855638, 14516439] }
  function Own27(): seq<bv64> { [21389528, 10633433, 14459098, 2891995, 3096796, 16351453, 508126, 43901151] }
  function Own28(): seq<bv64> { [4980960, 1233121, 7872738, 17936611, 17830116, 13979877, 848102, 14545127] }
  function Own29(): seq<bv64> { [24199400, 14713065, 16056554, 8184043, 10477804, 1323245, 57110766, 7098607] }
  function Own30(): seq<bv64> { [14606576, 26157297, 24715506, 3948787, 5992692, 2478325, 3952886, 12124407] }
  function Own31(): seq<bv64> { [1229048, 4215033, 13992186, 21283067, 10838268, 16306429, 7762174, 40202495] }

  lemma OwnSlots0() ensures Follow(Own0(), 0, 0) { EightFollow(Own0(), 0, 0); }
  lemma OwnSlots1() ensures Follow(Own1(), 8, 8) { EightFollow(Own1(), 8, 8); }
  lemma OwnSlots2() ensures Follow(Own2(), 16, 16) { EightFollow(Own2(), 16, 16); }
  lemma OwnSlots3() ensures Follow(Own3(), 24, 24) { EightFollow(Own3(), 24, 24); }
  lemma OwnSlots4() ensures Follow(Own4(), 32, 32) { EightFollow(Own4(), 32, 32); }
  lemma OwnSlots5() ensures Follow(Own5(), 40, 40) { EightFollow(Own5(), 40, 40); }
  lemma OwnSlots6() ensures Follow(Own6(), 48, 48) { EightFollow(Own6(), 48, 48); }
  lemma OwnSlots7() ensures Follow(Own7(), 56, 56) { EightFollow(Own7(), 56, 56); }
  lemma OwnSlots8() ensures Follow(Own8(), 64, 64) { EightFollow(Own8(), 64, 64); }
  lemma OwnSlots9() ensures Follow(Own9(), 72, 72) { EightFollow(Own9(), 72, 72); }
  lemma OwnSlots10() ensures Follow(Own10(), 80, 80) { EightFollow(Own10(), 80, 80); }
  lemma OwnSlots11() ensures Follow(Own11(), 88, 88) { EightFollow(Own11(), 88, 88); }
  lemma OwnSlots12() ensures Follow(Own12(), 96, 96) { EightFollow(Own12(), 96, 96); }
  lemma OwnSlots13() ensures Follow(Own13(), 104, 104) { EightFollow(Own13(), 104, 104); }
  lemma OwnSlots14() ensures Follow(Own14(), 112, 112) { EightFollow(Own14(), 112, 112); }
  lemma OwnSlots15() ensures Follow(Own15(), 120, 120) { EightFollow(Own15(), 120, 120); }
  lemma OwnSlots16() ensures Follow(Own16(), 128, 128) { EightFollow(Own16(), 128, 128); }
  lemma OwnSlots17() ensures Follow(Own17(), 136, 136) { EightFollow(Own17(), 136, 136); }
  lemma OwnSlots18() ensures Follow(Own18(), 144, 144) { EightFollow(Own18(), 144, 144); }
  lemma OwnSlots19() ensures Follow(Own19(), 152, 152) { EightFollow(Own19(), 152, 152); }
  lemma OwnSlots20() ensures Follow(Own20(), 160, 160) { EightFollow(Own20(), 160, 160); }
  lemma OwnSlots21() ensures Follow(Own21(), 168, 168) { EightFollow(Own21(), 168, 168); }
  lemma OwnSlots22() ensures Follow(Own22(), 176, 176) { EightFollow(Own22(), 176, 176); }
  lemma OwnSlots23() ensures Follow(Own23(), 184, 184) { EightFollow(Own23(), 184, 184); }
  lemma OwnSlots24() ensures Follow(Own24(), 192, 192) { EightFollow(Own24(), 192, 192); }
  lemma OwnSlots25() ensures Follow(Own25(), 200, 200) { EightFollow(Own25(), 200, 200); }
  lemma OwnSlots26() ensures Follow(Own26(), 208, 208) { EightFollow(Own26(), 208, 208); }
  lemma OwnSlots27() ensures Follow(Own27(), 216, 216) { EightFollow(Own27(), 216, 216); }
  lemma OwnSlots28() ensures Follow(Own28(), 224, 224) { EightFollow(Own28(), 224, 224); }
  lemma OwnSlots29() ensures Follow(Own29(), 232, 232) { EightFollow(Own29(), 232, 232); }
  lemma OwnSlots30() ensures Follow(Own30(), 240, 240) { EightFollow(Own30(), 240, 240); }
  lemma OwnSlots31() ensures Follow(Own31(), 248, 248) { EightFollow(Own31(), 248, 248); }

  function OwnRow(r: nat): (keys: seq<bv64>)
    requires r < 32
    ensures |keys| == 8
  {
    match r
    case 0 => Own0()
    case 1 => Own1()
    case 2 => Own2()
    case 3 => Own3()
    case 4 => Own4()
    case 5 => Own5()
    case 6 => Own6()
    case 7 => Own7()
    case 8 => Own8()
    case 9 => Own9()
    case 10 => Own10()
    case 11 => Own11()
    case 12 => Own12()
    case 13 => Own13()
    case 14 => Own14()
    case 15 => Own15()
    case 16 => Own16()
    case 17 => Own17()
    case 18 => Own18()
    case 19 => Own19()
    case 20 => Own20()
    case 21 => Own21()
    case 22 => Own22()
    case 23 => Own23()
    case 24 => Own24()
    case 25 => Own25()
    case 26 => Own26()
    case 27 => Own27()
    case 28 => Own28()
    case 29 => Own29()
    case 30 => Own30()
    case _ => Own31()
  }

  lemma OwnRowsFollow()
    ensures Follow(Own0(), 0, 0) && Follow(Own1(), 8, 8) && Follow(Own2(), 16, 16) && Follow(Own3(), 24, 24)
    ensures Follow(Own4(), 32, 32) && Follow(Own5(), 40, 40) && Follow(Own6(), 48, 48) && Follow(Own7(), 56, 56)
    ensures Follow(Own8(), 64, 64) && Follow(Own9(), 72, 72) && Follow(Own10(), 80, 80) && Follow(Own11(), 88, 88)
    ensures Follow(Own12(), 96, 96) && Follow(Own13(), 104, 104) && Follow(Own14(), 112, 112) && Follow(Own15(), 120, 120)
    ensures Follow(Own16(), 128, 128) && Follow(Own17(), 136, 136) && Follow(Own18(), 144, 144) && Follow(Own19(), 152, 152)
    ensures Follow(Own20(), 160, 160) && Follow(Own21(), 168, 168) && Follow(Own22(), 176, 176) && Follow(Own23(), 184, 184)
    ensures Follow(Own24(), 192, 192) && Follow(Own25(), 200, 200) && Follow(Own26(), 208, 208) && Follow(Own27(), 216, 216)
    ensures Follow(Own28(), 224, 224) && Follow(Own29(), 232, 232) && Follow(Own30(), 240, 240) && Follow(Own31(), 248, 248)
  {
    hide Follow, FirstHash, SecondHash, MixHash;
    OwnSlots0(); OwnSlots1(); OwnSlots2(); OwnSlots3(); OwnSlots4(); OwnSlots5();
    OwnSlots6(); OwnSlots7(); OwnSlots8(); OwnSlots9(); OwnSlots10(); OwnSlots11();
    OwnSlots12(); OwnSlots13(); OwnSlots14(); OwnSlots15(); OwnSlots16(); OwnSlots17();
    OwnSlots18(); OwnSlots19(); OwnSlots20(); OwnSlots21(); OwnSlots22(); OwnSlots23();
    OwnSlots24(); OwnSlots25(); OwnSlots26(); OwnSlots27(); OwnSlots28(); OwnSlots29();
    OwnSlots30(); OwnSlots31();
  }

  lemma OwnRowFollows(r: nat)
    requires r < 32
    ensures Follow(OwnRow(r), 8 * r, 8 * r)
  {
    OwnRowsFollow();
    hide Follow, FirstHash, SecondHash, MixHash, Own0, Own1, Own2, Own3, Own4, Own5, Own6, Own7, Own8, Own9, Own10,
         Own11, Own12, Own13, Own14, Own15, Own16, Own17, Own18, Own19, Own20, Own21, Own22, Own23, Own24, Own25,
         Own26, Own27, Own28, Own29, Own30, Own31;
  }

  function OwnKey(k: nat): bv64
    requires k < 257
  {
    if k == 256 then 66658560 else OwnRow(k / 8)[k % 8]
  }

  lemma OwnKeyHas(k: nat)
    requires k < 257
    ensures Has(OwnKey(k), k, k)
  {
    hide Has, FirstHash, SecondHash, MixHash, OwnRow;
    if k == 256 {
      LoneKeys();
    } else {
      OwnRowFollows(k / 8);
    }
  }

  // ---- the slots k and k - 1, and for the first key 0 and 257 ----

  function Edge0(): seq<bv64> { [13266945, 9367554, 77598723, 23429124, 4775941, 35586054, 5378055, 28065800] }
  function Edge1(): seq<bv64> { [29818889, 10960906, 9105419, 4591628, 52113421, 16105486, 13750287, 12234768] }
  function Edge2(): seq<bv64> { [28405777, 4608018, 1458195, 3301396, 29909013, 18214934, 5693463, 4718616] }
  function Edge3(): seq<bv64> { [29655065, 37433370, 11276315, 12492828, 3108893, 39333918, 663583, 20422688] }
  function Edge4(): seq<bv64> { [25681953, 19132450, 5734435, 15061028, 7643173, 26841126, 2142247, 43569192] }
  function Edge5(): seq<bv64> { [8134697, 25694250, 12161067, 6234156, 30150701, 55955502, 987183, 33312816] }
  function Edge6(): seq<bv64> { [1364017, 1122354, 10432563, 102452, 2367541, 5722166, 6639671, 7036984] }
  function Edge7(): seq<bv64> { [12447801, 52592698, 15622203, 25497660, 7688253, 16265278, 15298623, 10580032] }
  function Edge8(): seq<bv64> { [17911873, 40828994, 1065027, 25776196, 9232453, 27009094, 13992007, 6008904] }
  function Edge9(): seq<bv64> { [19697737, 34586698, 12079179, 5189708, 3674189, 16302158, 12234831, 3829840] }
  function Edge10(): seq<bv64> { [9154641, 471122, 12070995, 4341844, 4395093, 17608790, 3043415, 57208920] }
  function Edge11(): seq<bv64> { [17711193, 10571866, 6389851, 27983964, 23593053, 16212062, 38948959, 24043616] }
  function Edge12(): seq<bv64> { [55517281, 7397474, 43188323, 13488228, 22949989, 10281062, 18886759, 28868712] }
  function Edge13(): seq<bv64> { [20381801, 28356714, 20357227, 37150828, 10817645, 5496942, 11911279, 16384112] }
  function Edge14(): seq<bv64> { [2781297, 15593586, 55980147, 21639284, 43343989, 3608694, 376951, 6172792] }
  function Edge15(): seq<bv64> { [16785529, 17539194, 31789179, 14135420, 8540285, 823422, 5116031, 20811904] }
  function Edge16(): seq<bv64> { [37884033, 3076226, 3985539, 8253572, 2494597, 28806, 49426567, 18030728] }
  function Edge17(): seq<bv64> { [24412297, 5517450, 16187531, 77541516, 62898317, 16834702, 2019471, 29540496] }
  function Edge18(): seq<bv64> { [18362513, 62296210, 10715283, 4333716, 21803157, 13156502, 2605207, 684184] }
  function Edge19(): seq<bv64> { [40890521, 10743962, 37134491, 9805980, 6709405, 8994974, 2277535, 19329184] }
  function Edge20(): seq<bv64> { [4186273, 12079266, 11579555, 9052324, 5664933, 39039142, 15974567, 25034920] }
  function Edge21(): seq<bv64> { [5812393, 3596458, 10928299, 43503788, 65065133, 23781550, 24289455, 5619888] }
  function Edge22(): seq<bv64> { [84095153, 2621618, 1241267, 3645620, 32436405, 28647606, 5001399, 10158264] }
  function Edge23(): seq<bv64> { [8024249, 3600570, 20406459, 35373244, 52691133, 12435646, 55267519, 798912] }
  function Edge24(): seq<bv64> { [28672193, 13631682, 9605315, 471236, 13447365, 43200710, 17862855, 4587720] }
  function Edge25(): seq<bv64> { [25563337, 8564938, 8519883, 2900172, 16474317, 24518862, 21938383, 5587152] }
  function Edge26(): seq<bv64> { [53780689, 2429138, 1138899, 17973460, 16724181, 11071702, 16404695, 4272344] }
  function Edge27(): seq<bv64> { [13951193, 25538778, 34865371, 3629276, 7962845, 3612894, 12394719, 11309280] }
  function Edge28(): seq<bv64> { [10436833, 4452578, 29057251, 15982820, 4489445, 3027174, 13770983, 307432] }
  function Edge29(): seq<bv64> { [36458729, 29118698, 30310635, 3309804, 15601901, 7323886, 12234991, 21004528] }
  function Edge30(): seq<bv64> { [13349105, 22053106, 1020147, 5808372, 6918389, 463094, 9294071, 11927800] }
  function Edge31(): seq<bv64> { [33247481, 12386554, 5247227, 10547452, 57729277, 20300030, 463103, 65822976] }

  lemma EdgeSlots0() ensures Follow(Edge0(), 1, 0) { EightFollow(Edge0(), 1, 0); }
  lemma EdgeSlots1() ensures Follow(Edge1(), 9, 8) { EightFollow(Edge1(), 9, 8); }
  lemma EdgeSlots2() ensures Follow(Edge2(), 17, 16) { EightFollow(Edge2(), 17, 16); }
  lemma EdgeSlots3() ensures Follow(Edge3(), 25, 24) { EightFollow(Edge3(), 25, 24); }
  lemma EdgeSlots4() ensures Follow(Edge4(), 33, 32) { EightFollow(Edge4(), 33, 32); }
  lemma EdgeSlots5() ensures Follow(Edge5(), 41, 40) { EightFollow(Edge5(), 41, 40); }
  lemma EdgeSlots6() ensures Follow(Edge6(), 49, 48) { EightFollow(Edge6(), 49, 48); }
  lemma EdgeSlots7() ensures Follow(Edge7(), 57, 56) { EightFollow(Edge7(), 57, 56); }
  lemma EdgeSlots8() ensures Follow(Edge8(), 65, 64) { EightFollow(Edge8(), 65, 64); }
  lemma EdgeSlots9() ensures Follow(Edge9(), 73, 72) { EightFollow(Edge9(), 73, 72); }
  lemma EdgeSlots10() ensures Follow(Edge10(), 81, 80) { EightFollow(Edge10(), 81, 80); }
  lemma EdgeSlots11() ensures Follow(Edge11(), 89, 88) { EightFollow(Edge11(), 89, 88); }
  lemma EdgeSlots12() ensures Follow(Edge12(), 97, 96) { EightFollow(Edge12(), 97, 96); }
  lemma EdgeSlots13() ensures Follow(Edge13(), 105, 104) { EightFollow(Edge13(), 105, 104); }
  lemma EdgeSlots14() ensures Follow(Edge14(), 113, 112) { EightFollow(Edge14(), 113, 112); }
  lemma EdgeSlots15() ensures Follow(Edge15(), 121, 120) { EightFollow(Edge15(), 121, 120); }
  lemma EdgeSlots16() ensures Follow(Edge16(), 129, 128) { EightFollow(Edge16(), 129, 128); }
  lemma EdgeSlots17() ensures Follow(Edge17(), 137, 136) { EightFollow(Edge17(), 137, 136); }
  lemma EdgeSlots18() ensures Follow(Edge18(), 145, 144) { EightFollow(Edge18(), 145, 144); }
  lemma EdgeSlots19() ensures Follow(Edge19(), 153, 152) { EightFollow(Edge19(), 153, 152); }
  lemma EdgeSlots20() ensures Follow(Edge20(), 161, 160) { EightFollow(Edge20(), 161, 160); }
  lemma EdgeSlots21() ensures Follow(Edge21(), 169, 168) { EightFollow(Edge21(), 169, 168); }
  lemma EdgeSlots22() ensures Follow(Edge22(), 177, 176) { EightFollow(Edge22(), 177, 176); }
  lemma EdgeSlots23() ensures Follow(Edge23(), 185, 184) { EightFollow(Edge23(), 185, 184); }
  lemma EdgeSlots24() ensures Follow(Edge24(), 193, 192) { EightFollow(Edge24(), 193, 192); }
  lemma EdgeSlots25() ensures Follow(Edge25(), 201, 200) { EightFollow(Edge25(), 201, 200); }
  lemma EdgeSlots26() ensures Follow(Edge26(), 209, 208) { EightFollow(Edge26(), 209, 208); }
  lemma EdgeSlots27() ensures Follow(Edge27(), 217, 216) { EightFollow(Edge27(), 217, 216); }
  lemma EdgeSlots28() ensures Follow(Edge28(), 225, 224) { EightFollow(Edge28(), 225, 224); }
  lemma EdgeSlots29() ensures Follow(Edge29(), 233, 232) { EightFollow(Edge29(), 233, 232); }
  lemma EdgeSlots30() ensures Follow(Edge30(), 241, 240) { EightFollow(Edge30(), 241, 240); }
  lemma EdgeSlots31() ensures Follow(Edge31(), 249, 248) { EightFollow(Edge31(), 249, 248); }

  function EdgeRow(r: nat): (keys: seq<bv64>)
    requires r < 32
    ensures |keys| == 8
  {
    match r
    case 0 => Edge0()
    case 1 => Edge1()
    case 2 => Edge2()
    case 3 => Edge3()
    case 4 => Edge4()
    case 5 => Edge5()
    case 6 => Edge6()
    case 7 => Edge7()
    case 8 => Edge8()
    case 9 => Edge9()
    case 10 => Edge10()
    case 11 => Edge11()
    case 12 => Edge12()
    case 13 => Edge13()
    case 14 => Edge14()
    case 15 => Edge15()
    case 16 => Edge16()
    case 17 => Edge17()
    case 18 => Edge18()
    case 19 => Edge19()
    case 20 => Edge20()
    case 21 => Edge21()
    case 22 => Edge22()
    case 23 => Edge23()
    case 24 => Edge24()
    case 25 => Edge25()
    case 26 => Edge26()
    case 27 => Edge27()
    case 28 => Edge28()
    case 29 => Edge29()
    case 30 => Edge30()
    case _ => Edge31()
  }

  lemma EdgeRowsFollow()
    ensures Follow(Edge0(), 1, 0) && Follow(Edge1(), 9, 8) && Follow(Edge2(), 17, 16) && Follow(Edge3(), 25, 24)
    ensures Follow(Edge4(), 33, 32) && Follow(Edge5(), 41, 40) && Follow(Edge6(), 49, 48) && Follow(Edge7(), 57, 56)
    ensures Follow(Edge8(), 65, 64) && Follow(Edge9(), 73, 72) && Follow(Edge10(), 81, 80) && Follow(Edge11(), 89, 88)
    ensures Follow(Edge12(), 97, 96) && Follow(Edge13(), 105, 104) && Follow(Edge14(), 113, 112) && Follow(Edge15(), 121, 120)
    ensures Follow(Edge16(), 129, 128) && Follow(Edge17(), 137, 136) && Follow(Edge18(), 145, 144) && Follow(Edge19(), 153, 152)
    ensures Follow(Edge20(), 161, 160) && Follow(Edge21(), 169, 168) && Follow(Edge22(), 177, 176) && Follow(Edge23(), 185, 184)
    ensures Follow(Edge24(), 193, 192) && Follow(Edge25(), 201, 200) && Follow(Edge26(), 209, 208) && Follow(Edge27(), 217, 216)
    ensures Follow(Edge28(), 225, 224) && Follow(Edge29(), 233, 232) && Follow(Edge30(), 241, 240) && Follow(Edge31(), 249, 248)
  {
    hide Follow, FirstHash, SecondHash, MixHash;
    EdgeSlots0(); EdgeSlots1(); EdgeSlots2(); EdgeSlots3(); EdgeSlots4(); EdgeSlots5();
    EdgeSlots6(); EdgeSlots7(); EdgeSlots8(); EdgeSlots9(); EdgeSlots10(); EdgeSlots11();
    EdgeSlots12(); EdgeSlots13(); EdgeSlots14(); EdgeSlots15(); EdgeSlots16(); EdgeSlots17();
    EdgeSlots18(); EdgeSlots19(); EdgeSlots20(); EdgeSlots21(); EdgeSlots22(); EdgeSlots23();
    EdgeSlots24(); EdgeSlots25(); EdgeSlots26(); EdgeSlots27(); EdgeSlots28(); EdgeSlots29();
    EdgeSlots30(); EdgeSlots31();
  }

  lemma EdgeRowFollows(r: nat)
    requires r < 32
    ensures Follow(EdgeRow(r), 8 * r + 1, 8 * r)
  {
    EdgeRowsFollow();
    hide Follow, FirstHash, SecondHash, MixHash, Edge0, Edge1, Edge2, Edge3, Edge4, Edge5, Edge6, Edge7, Edge8, Edge9,
         Edge10, Edge11, Edge12, Edge13, Edge14, Edge15, Edge16, Edge17, Edge18, Edge19, Edge20, Edge21, Edge22,
         Edge23, Edge24, Edge25, Edge26, Edge27, Edge28, Edge29, Edge30, Edge31;
  }

  function EdgeKey(k: nat): bv64
    requires k < 257
  {
    if k == 0 then 7450624 else EdgeRow((k - 1) / 8)[(k - 1) % 8]
  }

  lemma EdgeKeyHas(k: nat)
    requires k < 257
    ensures Has(EdgeKey(k), k, if k == 0 then 257 else k - 1)
  {
    hide Has, FirstHash, SecondHash, MixHash, EdgeRow;
    if k == 0 {
      LoneKeys();
    } else {
      var r := (k - 1) / 8;
      EdgeRowFollows(r);
    }
  }
}
