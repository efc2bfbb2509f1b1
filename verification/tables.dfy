/** The twist (W) and untwist (R) tables of the two ring sizes, exactly as
    listed in src/param.rs. Each table is stored as rows of eight entries,
    the layout of the source; a row is found by a balanced binary search on
    its number, which keeps single-entry lookups cheap for the verifier.

    The facts proved here, entry by entry, are the ones the transform relies
    on: W[0] = 1, W[i] = W[i-1]·W[1] mod Q, R[i] = R[0]·W[i] mod Q. */
module Tables {

  /** Row r (entries 8r .. 8r+7) of W for Q = 7681, N = 256. */
  function W256Row(r: int): (row: seq<int>)
    ensures |row| == 8
  {
    if r < 16 then
      if r < 8 then
        if r < 4 then
          if r < 2 then
            if r < 1 then
              [1, 7146, 2028, 5722, 3449, 5906, 4862, 2689]
            else
              [5413, 7463, 1415, 3394, 4607, 856, 2900, 62]
          else
            if r < 3 then
              [5235, 2840, 1438, 6451, 5165, 1885, 5417, 5323]
            else
              [1846, 3239, 3041, 1437, 6986, 3137, 3844, 1968]
        else
          if r < 6 then
            if r < 5 then
              [7098, 4665, 550, 5309, 1655, 5571, 7424, 6918]
            else
              [1112, 4198, 4603, 2996, 2469, 217, 6801, 2259]
          else
            if r < 7 then
              [5033, 3376, 6556, 2757, 7438, 7109, 6461, 7496]
            else
              [6803, 1189, 1408, 7139, 5773, 6888, 1800, 4806]
      else
        if r < 12 then
          if r < 10 then
            if r < 9 then
              [1925, 7060, 1952, 296, 2941, 1170, 3892, 7012]
            else
              [4589, 2805, 4801, 4600, 4601, 4066, 6094, 4135]
          else
            if r < 11 then
              [7584, 5809, 2990, 5679, 3411, 3193, 4608, 321]
            else
              [4928, 5784, 1003, 1065, 6300, 1459, 2897, 1667]
        else
          if r < 14 then
            if r < 13 then
              [6832, 1036, 6453, 4095, 5941, 1499, 4540, 5977]
            else
              [5282, 738, 4582, 6550, 5967, 2951, 3501, 1129]
          else
            if r < 15 then
              [2784, 674, 417, 7335, 766, 4964, 1886, 4882]
            else
              [7351, 7568, 6688, 1266, 6299, 1994, 869, 3626]
    else
      if r < 24 then
        if r < 20 then
          if r < 18 then
            if r < 17 then
              [3383, 2811, 1591, 1406, 528, 1717, 3125, 2583]
            else
              [675, 7563, 1682, 6488, 732, 111, 2063, 2359]
          else
            if r < 19 then
              [5300, 6470, 2681, 2012, 6601, 1725, 6526, 3445]
            else
              [365, 4431, 2844, 6979, 6882, 5010, 319, 5998]
        else
          if r < 22 then
            if r < 21 then
              [1728, 4921, 1848, 2169, 7097, 5200, 6203, 7268]
            else
              [5887, 7346, 2562, 4229, 3380, 4416, 3188, 7283]
          else
            if r < 23 then
              [5543, 7042, 3901, 2197, 7479, 536, 5118, 3987]
            else
              [2273, 5224, 1044, 2173, 4957, 5631, 6048, 5702]
      else
        if r < 28 then
          if r < 26 then
            if r < 25 then
              [6468, 3751, 5637, 2838, 2508, 2395, 1402, 2668]
            else
              [1286, 3280, 4149, 94, 3477, 6288, 198, 1604]
          else
            if r < 27 then
              [2132, 3849, 6974, 1876, 2551, 2433, 4115, 2922]
            else
              [3654, 3765, 5828, 506, 5806, 4595, 7276, 1607]
        else
          if r < 30 then
            if r < 29 then
              [527, 2252, 1097, 4542, 4907, 1657, 4501, 3799]
            else
              [3000, 329, 648, 6646, 693, 5614, 7462, 1950]
          else
            if r < 31 then
              [1366, 6566, 5088, 4675, 2881, 2546, 5108, 1656]
            else
              [5036, 1771, 4959, 4561, 2423, 1784, 5685, 201]
  }

  /** Row r of R for Q = 7681, N = 256. */
  function R256Row(r: int): (row: seq<int>)
    ensures |row| == 8
  {
    if r < 16 then
      if r < 8 then
        if r < 4 then
          if r < 2 then
            if r < 1 then
              [30, 6993, 7073, 2678, 3617, 517, 7602, 3860]
            else
              [1089, 1141, 4045, 1967, 7633, 2637, 2509, 1860]
          else
            if r < 3 then
              [3430, 709, 4735, 1505, 1330, 2783, 1209, 6070]
            else
              [1613, 4998, 6739, 4705, 2193, 1938, 105, 5273]
        else
          if r < 6 then
            if r < 5 then
              [5553, 1692, 1138, 5650, 3564, 5829, 7652, 153]
            else
              [2636, 3044, 7513, 5389, 4941, 6510, 4324, 6322]
          else
            if r < 7 then
              [5051, 1427, 4655, 5900, 391, 5883, 1805, 2131]
            else
              [4384, 4946, 3835, 6783, 4208, 6934, 233, 5922]
      else
        if r < 12 then
          if r < 10 then
            if r < 9 then
              [3983, 4413, 4793, 1199, 3739, 4376, 1545, 2973]
            else
              [7093, 7340, 5772, 7423, 7453, 6765, 6157, 1154]
          else
            if r < 11 then
              [4771, 5288, 5209, 1388, 2477, 3618, 7663, 1949]
            else
              [1901, 4538, 7047, 1226, 4656, 5365, 2419, 3924]
        else
          if r < 14 then
            if r < 13 then
              [5254, 356, 1565, 7635, 1567, 6565, 5623, 2647]
            else
              [4840, 6778, 6883, 4475, 2347, 4039, 5177, 3146]
          else
            if r < 15 then
              [6710, 4858, 4829, 4982, 7618, 2981, 2813, 521]
            else
              [5462, 4291, 934, 7256, 4626, 6053, 3027, 1246]
    else
      if r < 24 then
        if r < 20 then
          if r < 18 then
            if r < 17 then
              [1637, 7520, 1644, 3775, 478, 5424, 1578, 680]
            else
              [4888, 4141, 4374, 2615, 6598, 3330, 442, 1641]
          else
            if r < 19 then
              [5380, 2075, 3620, 6593, 6005, 5664, 3755, 3497]
            else
              [3269, 2353, 829, 1983, 6754, 4361, 1889, 3277]
        else
          if r < 22 then
            if r < 21 then
              [5754, 1691, 1673, 3622, 5523, 2380, 1746, 2972]
            else
              [7628, 5312, 50, 3974, 1547, 1903, 3468, 3422]
          else
            if r < 23 then
              [4989, 3873, 1815, 4462, 1621, 718, 7601, 4395]
            else
              [6742, 3100, 596, 3742, 2771, 7629, 4777, 2078]
      else
        if r < 28 then
          if r < 26 then
            if r < 25 then
              [2015, 4996, 128, 649, 6111, 2721, 3655, 3230]
            else
              [175, 6228, 1574, 2820, 4457, 4296, 5940, 2034]
          else
            if r < 27 then
              [2512, 255, 1833, 2513, 7401, 3861, 554, 3169]
            else
              [2086, 5416, 5858, 7499, 5198, 7273, 3212, 2124]
        else
          if r < 30 then
            if r < 29 then
              [448, 6112, 2186, 5683, 1271, 3624, 4453, 6436]
            else
              [5509, 2189, 4078, 7355, 5428, 7119, 1111, 4733]
          else
            if r < 31 then
              [2575, 4955, 6701, 1992, 1939, 7251, 7301, 3594]
            else
              [5141, 7044, 2831, 6253, 3561, 7434, 1568, 6030]
  }

  /** Row r of W for Q = 12289, N = 512. */
  function W512Row(r: int): (row: seq<int>)
    ensures |row| == 8
  {
    if r < 32 then
      if r < 16 then
        if r < 8 then
          if r < 4 then
            if r < 2 then
              if r < 1 then
                [1, 10302, 3400, 3150, 8340, 6281, 5277, 9407]
              else
                [12149, 7822, 3271, 1404, 12144, 5468, 10849, 10232]
            else
              if r < 3 then
                [7311, 10930, 9042, 64, 8011, 8687, 4976, 5333]
              else
                [8736, 5925, 12176, 3329, 9048, 431, 3833, 3009]
          else
            if r < 6 then
              if r < 5 then
                [5860, 6152, 3531, 922, 11336, 1105, 4096, 8855]
              else
                [2963, 11239, 9509, 6099, 10530, 5057, 4143, 1489]
            else
              if r < 7 then
                [3006, 11821, 8241, 6370, 480, 4782, 9852, 453]
              else
                [9275, 4075, 1426, 5297, 6534, 6415, 9377, 10314]
        else
          if r < 12 then
            if r < 10 then
              if r < 9 then
                [4134, 7083, 9273, 8049, 6915, 11286, 2143, 6142]
              else
                [11112, 3789, 4414, 3728, 2731, 5241, 7205, 350]
            else
              if r < 11 then
                [5023, 10256, 8779, 6507, 10908, 3600, 11287, 156]
              else
                [9542, 1973, 12129, 10695, 9005, 12138, 5101, 2738]
          else
            if r < 14 then
              if r < 13 then
                [3621, 6427, 10111, 1958, 5067, 8851, 10911, 9928]
              else
                [9198, 9606, 9984, 8527, 3382, 2049, 8585, 11026]
            else
              if r < 15 then
                [2625, 6950, 3186, 10542, 5791, 8076, 2422, 4774]
              else
                [1170, 10120, 8653, 11089, 334, 12237, 5012, 7535]
      else
        if r < 24 then
          if r < 20 then
            if r < 18 then
              if r < 17 then
                [8246, 8724, 5191, 8243, 2396, 7280, 11082, 1954]
              else
                [726, 7540, 10600, 1146, 8652, 787, 9223, 9087]
            else
              if r < 19 then
                [8961, 1254, 2969, 11606, 5331, 421, 11414, 5876]
              else
                [11227, 8775, 2166, 9597, 3289, 2505, 11899, 723]
          else
            if r < 22 then
              if r < 21 then
                [1212, 400, 3985, 8210, 6522, 5681, 5444, 9381]
              else
                [2366, 5445, 7394, 5766, 8595, 3445, 12047, 1583]
            else
              if r < 23 then
                [563, 11907, 9405, 3834, 1022, 9260, 9302, 11871]
              else
                [7203, 4324, 10512, 3956, 4388, 6234, 354, 9364]
        else
          if r < 28 then
            if r < 26 then
              if r < 25 then
                [11567, 9090, 3000, 11454, 130, 12048, 11885, 3963]
              else
                [2768, 5456, 10115, 6299, 6378, 9162, 7404, 10474]
            else
              if r < 27 then
                [5728, 10367, 9424, 2948, 4177, 7665, 8005, 8320]
              else
                [9154, 11011, 7852, 5106, 5092, 8332, 9888, 2655]
          else
            if r < 30 then
              if r < 29 then
                [8785, 6874, 6730, 10211, 12171, 975, 4337, 9259]
              else
                [11289, 8471, 4053, 8273, 4231, 10968, 7270, 6374]
            else
              if r < 31 then
                [4821, 6093, 10163, 9235, 9821, 605, 2187, 4737]
              else
                [955, 7210, 2704, 9734, 1428, 1323, 1045, 426]
    else
      if r < 48 then
        if r < 40 then
          if r < 36 then
            if r < 34 then
              if r < 33 then
                [1479, 10587, 2399, 1319, 8993, 11404, 1168, 1805]
              else
                [1853, 4789, 8232, 11964, 6747, 1010, 8526, 5369]
            else
              if r < 35 then
                [10938, 5435, 2686, 8633, 1673, 6068, 10682, 10258]
              else
                [4805, 1018, 4919, 7991, 11560, 10710, 3778, 1693]
          else
            if r < 38 then
              if r < 37 then
                [3195, 4948, 11813, 11848, 3748, 12147, 11796, 8760]
              else
                [7393, 7753, 5195, 295, 3707, 7591, 7575, 2500]
            else
              if r < 39 then
                [9545, 8301, 10040, 7856, 9447, 6403, 8643, 6381]
              else
                [3201, 5315, 7635, 6170, 4632, 677, 6591, 3757]
        else
          if r < 44 then
            if r < 42 then
              if r < 41 then
                [6553, 5529, 243, 8719, 2837, 3532, 11224, 2447]
              else
                [4255, 147, 2847, 8240, 8357, 9369, 1632, 1512]
            else
              if r < 43 then
                [6461, 3998, 6957, 1566, 9764, 3263, 5011, 9522]
              else
                [4846, 5574, 9140, 1962, 9408, 10162, 11222, 6421]
          else
            if r < 46 then
              if r < 45 then
                [9744, 6136, 10745, 7967, 10092, 2844, 1912, 10446]
              else
                [12208, 1190, 7247, 2919, 355, 7377, 2678, 12240]
            else
              if r < 47 then
                [11340, 5446, 5407, 9166, 11745, 11785, 6039, 6860]
              else
                [9970, 11767, 4938, 7105, 2426, 9115, 2481, 10431]
      else
        if r < 56 then
          if r < 52 then
            if r < 50 then
              if r < 49 then
                [5146, 11635, 9153, 709, 4452, 1956, 9041, 2051]
              else
                [4611, 5537, 8925, 11341, 3459, 8807, 27, 7796]
            else
              if r < 51 then
                [5777, 11316, 3978, 9830, 7300, 8209, 8509, 2281]
              else
                [2294, 1041, 8374, 168, 10276, 5906, 773, 174]
          else
            if r < 54 then
              if r < 53 then
                [10643, 1728, 7384, 1058, 11462, 8812, 2381, 218]
              else
                [9238, 3860, 10805, 11637, 5179, 7509, 10752, 6347]
            else
              if r < 55 then
                [9314, 316, 11136, 5257, 12280, 5594, 6267, 8517]
              else
                [10963, 4916, 1663, 1360, 1260, 3336, 7428, 11942]
        else
          if r < 60 then
            if r < 58 then
              if r < 57 then
                [1305, 12233, 671, 6224, 7935, 12231, 4645, 11713]
              else
                [1635, 7840, 4372, 1159, 7399, 8120, 1017, 6906]
            else
              if r < 59 then
                [4591, 8410, 2370, 9786, 8705, 6077, 5088, 3991]
              else
                [8577, 2344, 3, 6328, 10200, 9450, 442, 6554]
          else
            if r < 62 then
              if r < 61 then
                [3542, 3643, 11869, 11177, 9813, 4212, 11854, 4115]
              else
                [7969, 6118, 9644, 8212, 2548, 192, 11744, 1483]
            else
              if r < 63 then
                [2639, 3710, 1630, 5486, 11950, 9987, 2566, 1293]
              else
                [11499, 9027, 5291, 6167, 10593, 2766, 9430, 3315]
  }

  /** Row r of R for Q = 12289, N = 512. */
  function R512Row(r: int): (row: seq<int>)
    ensures |row| == 8
  {
    if r < 32 then
      if r < 16 then
        if r < 8 then
          if r < 4 then
            if r < 2 then
              if r < 1 then
                [24, 1468, 7866, 1866, 3536, 3276, 3758, 4566]
              else
                [8929, 3393, 4770, 9118, 8809, 8342, 2307, 12077]
            else
              if r < 3 then
                [3418, 4251, 8095, 1536, 7929, 11864, 8823, 5102]
              else
                [751, 7021, 9577, 6162, 8239, 10344, 5969, 10771]
          else
            if r < 6 then
              if r < 5 then
                [5461, 180, 11010, 9839, 1706, 1942, 12281, 3607]
              else
                [9667, 11667, 7014, 11197, 6940, 10767, 1120, 11158]
            else
              if r < 7 then
                [10699, 1057, 1160, 5412, 11520, 4167, 2957, 10872]
              else
                [1398, 11777, 9646, 4238, 9348, 6492, 3846, 1756]
        else
          if r < 12 then
            if r < 10 then
              if r < 9 then
                [904, 10235, 1350, 8841, 6203, 506, 2276, 12229]
              else
                [8619, 4913, 7624, 3449, 4099, 2894, 874, 8400]
            else
              if r < 11 then
                [9951, 364, 1783, 8700, 3723, 377, 530, 3744]
              else
                [7806, 10485, 8449, 10900, 7207, 8665, 11823, 4267]
          else
            if r < 14 then
              if r < 13 then
                [881, 6780, 9173, 10125, 11007, 3511, 3795, 4781]
              else
                [11839, 9342, 6125, 8024, 7434, 20, 9416, 6555]
            else
              if r < 15 then
                [1555, 7043, 2730, 7228, 3805, 9489, 8972, 3975]
              else
                [3502, 9389, 11048, 8067, 8016, 11041, 9687, 8794]
      else
        if r < 24 then
          if r < 20 then
            if r < 18 then
              if r < 17 then
                [1280, 463, 1694, 1208, 8348, 2674, 7899, 10029]
              else
                [5135, 8914, 8620, 2926, 11024, 6599, 150, 9175]
            else
              if r < 19 then
                [6151, 5518, 9811, 8186, 5054, 10104, 3578, 5845]
              else
                [11379, 1687, 2828, 9126, 5202, 10964, 2929, 5063]
          else
            if r < 22 then
              if r < 21 then
                [4510, 9600, 9617, 416, 9060, 1165, 7766, 3942]
              else
                [7628, 7790, 5410, 3205, 9656, 8946, 6481, 1125]
            else
              if r < 23 then
                [1223, 3121, 4518, 5993, 12239, 1038, 2046, 2257]
              else
                [826, 5464, 6508, 8921, 7000, 2148, 8496, 3534]
        else
          if r < 28 then
            if r < 26 then
              if r < 25 then
                [7250, 9247, 10555, 4538, 3120, 6505, 2593, 9089]
              else
                [4987, 8054, 9269, 3708, 5604, 10975, 5650, 5596]
            else
              if r < 27 then
                [2293, 3028, 4974, 9307, 1936, 11914, 7785, 3056]
              else
                [10783, 6195, 4113, 11943, 11607, 3344, 3821, 2275]
          else
            if r < 30 then
              if r < 29 then
                [1927, 5219, 1763, 11573, 9457, 11111, 5776, 1014]
              else
                [578, 6680, 11249, 1928, 3232, 5163, 2434, 5508]
            else
              if r < 31 then
                [5103, 11053, 10421, 438, 2213, 2231, 3332, 3087]
              else
                [10631, 994, 3451, 125, 9694, 7174, 502, 10224]
    else
      if r < 48 then
        if r < 40 then
          if r < 36 then
            if r < 34 then
              if r < 33 then
                [10918, 8308, 8420, 7078, 6919, 3338, 3454, 6453]
              else
                [7605, 4335, 944, 4489, 2171, 11951, 8000, 5966]
            else
              if r < 35 then
                [4443, 7550, 3019, 10568, 3285, 10453, 10588, 412]
              else
                [4719, 12143, 7455, 7449, 7082, 11260, 4649, 3765]
          else
            if r < 38 then
              if r < 37 then
                [2946, 8151, 865, 1705, 3929, 8881, 457, 1327]
              else
                [5386, 1737, 1790, 7080, 2945, 10138, 9754, 10844]
            else
              if r < 39 then
                [7878, 2600, 7469, 4209, 5526, 6204, 10808, 5676]
              else
                [3090, 4670, 11194, 612, 567, 3959, 10716, 4145]
        else
          if r < 44 then
            if r < 42 then
              if r < 41 then
                [9804, 9806, 5832, 343, 6643, 11034, 11307, 9572]
              else
                [3808, 3528, 6883, 1136, 3944, 3654, 2301, 11710]
            else
              if r < 43 then
                [7596, 9929, 7211, 717, 845, 4578, 9663, 7326]
              else
                [5703, 10886, 10447, 10221, 4590, 10397, 11259, 6636]
          else
            if r < 46 then
              if r < 45 then
                [365, 12085, 12100, 6873, 8717, 6811, 9021, 4924]
              else
                [10345, 3982, 1882, 8611, 8520, 5002, 2827, 11113]
            else
              if r < 47 then
                [1802, 7814, 6878, 11071, 11522, 193, 9757, 4883]
              else
                [5789, 12050, 7911, 10763, 9068, 9847, 10388, 4564]
      else
        if r < 56 then
          if r < 52 then
            if r < 50 then
              if r < 49 then
                [614, 8882, 10759, 4727, 8536, 10077, 8071, 68]
              else
                [63, 9998, 5287, 1826, 9282, 2455, 648, 2769]
            else
              if r < 51 then
                [3469, 1226, 9449, 2429, 3154, 392, 7592, 5588]
              else
                [5900, 406, 4352, 4032, 844, 6565, 6263, 4176]
          else
            if r < 54 then
              if r < 53 then
                [9652, 4605, 5170, 814, 4730, 2575, 7988, 5232]
              else
                [510, 6617, 1251, 8930, 1406, 8170, 12268, 4860]
            else
              if r < 55 then
                [2334, 7584, 9195, 3278, 12073, 11366, 2940, 7784]
              else
                [5043, 7383, 3045, 8062, 5662, 6330, 6226, 3961]
        else
          if r < 60 then
            if r < 58 then
              if r < 57 then
                [6742, 10945, 3815, 1908, 6105, 10897, 879, 10754]
              else
                [2373, 3825, 6616, 3238, 5530, 10545, 12119, 5987]
            else
              if r < 59 then
                [11872, 5216, 7724, 1373, 7, 10669, 11511, 9761]
              else
                [9224, 7100, 72, 4404, 11309, 5598, 10608, 9828]
          else
            if r < 62 then
              if r < 61 then
                [11274, 1409, 2209, 10179, 2021, 2776, 1849, 448]
              else
                [6921, 11653, 10254, 464, 11996, 4608, 11498, 11014]
            else
              if r < 63 then
                [1891, 3017, 2253, 8774, 4153, 6197, 139, 6454]
              else
                [5618, 7735, 4094, 540, 8452, 4939, 5118, 5826]
  }

  function W256(i: int): int
    requires 0 <= i < 256
  {
    W256Row(i / 8)[i % 8]
  }

  function R256(i: int): int
    requires 0 <= i < 256
  {
    R256Row(i / 8)[i % 8]
  }

  function W512(i: int): int
    requires 0 <= i < 512
  {
    W512Row(i / 8)[i % 8]
  }

  function R512(i: int): int
    requires 0 <= i < 512
  {
    R512Row(i / 8)[i % 8]
  }

  function W256Table(): (t: seq<int>)
    ensures |t| == 256
    ensures forall i | 0 <= i < 256 :: t[i] == W256(i)
  {
    seq(256, i requires 0 <= i < 256 => W256(i))
  }

  function R256Table(): (t: seq<int>)
    ensures |t| == 256
    ensures forall i | 0 <= i < 256 :: t[i] == R256(i)
  {
    seq(256, i requires 0 <= i < 256 => R256(i))
  }

  function W512Table(): (t: seq<int>)
    ensures |t| == 512
    ensures forall i | 0 <= i < 512 :: t[i] == W512(i)
  {
    seq(512, i requires 0 <= i < 512 => W512(i))
  }

  function R512Table(): (t: seq<int>)
    ensures |t| == 512
    ensures forall i | 0 <= i < 512 :: t[i] == R512(i)
  {
    seq(512, i requires 0 <= i < 512 => R512(i))
  }

  /** Entry i of both tables for N = 256 satisfies the recurrences. */
  predicate Entry256Ok(i: int)
    requires 0 <= i < 256
  {
    && R256(i) == R256(0) * W256(i) % 7681
    && (i >= 1 ==> W256(i) == W256(i - 1) * W256(1) % 7681)
  }

  lemma Entries256From0()
    ensures forall i | 0 <= i < 8 :: Entry256Ok(i)
  {
    assert Entry256Ok(0);
    assert Entry256Ok(1);
    assert Entry256Ok(2);
    assert Entry256Ok(3);
    assert Entry256Ok(4);
    assert Entry256Ok(5);
    assert Entry256Ok(6);
    assert Entry256Ok(7);
    forall i | 0 <= i < 8
      ensures Entry256Ok(i)
    {
      assert i == 0 || i == 1 || i == 2 || i == 3 || i == 4 || i == 5 || i == 6 || i == 7;
    }
  }

  lemma Entries256From8()
    ensures forall i | 8 <= i < 16 :: Entry256Ok(i)
  {
    assert Entry256Ok(8);
    assert Entry256Ok(9);
    assert Entry256Ok(10);
    assert Entry256Ok(11);
    assert Entry256Ok(12);
    assert Entry256Ok(13);
    assert Entry256Ok(14);
    assert Entry256Ok(15);
    forall i | 8 <= i < 16
      ensures Entry256Ok(i)
    {
      assert i == 8 || i == 9 || i == 10 || i == 11 || i == 12 || i == 13 || i == 14 || i == 15;
    }
  }

  lemma Entries256From16()
    ensures forall i | 16 <= i < 24 :: Entry256Ok(i)
  {
    assert Entry256Ok(16);
    assert Entry256Ok(17);
    assert Entry256Ok(18);
    assert Entry256Ok(19);
    assert Entry256Ok(20);
    assert Entry256Ok(21);
    assert Entry256Ok(22);
    assert Entry256Ok(23);
    forall i | 16 <= i < 24
      ensures Entry256Ok(i)
    {
      assert i == 16 || i == 17 || i == 18 || i == 19 || i == 20 || i == 21 || i == 22 || i == 23;
    }
  }

  lemma Entries256From24()
    ensures forall i | 24 <= i < 32 :: Entry256Ok(i)
  {
    assert Entry256Ok(24);
    assert Entry256Ok(25);
    assert Entry256Ok(26);
    assert Entry256Ok(27);
    assert Entry256Ok(28);
    assert Entry256Ok(29);
    assert Entry256Ok(30);
    assert Entry256Ok(31);
    forall i | 24 <= i < 32
      ensures Entry256Ok(i)
    {
      assert i == 24 || i == 25 || i == 26 || i == 27 || i == 28 || i == 29 || i == 30 || i == 31;
    }
  }

  lemma Entries256From32()
    ensures forall i | 32 <= i < 40 :: Entry256Ok(i)
  {
    assert Entry256Ok(32);
    assert Entry256Ok(33);
    assert Entry256Ok(34);
    assert Entry256Ok(35);
    assert Entry256Ok(36);
    assert Entry256Ok(37);
    assert Entry256Ok(38);
    assert Entry256Ok(39);
    forall i | 32 <= i < 40
      ensures Entry256Ok(i)
    {
      assert i == 32 || i == 33 || i == 34 || i == 35 || i == 36 || i == 37 || i == 38 || i == 39;
    }
  }

  lemma Entries256From40()
    ensures forall i | 40 <= i < 48 :: Entry256Ok(i)
  {
    assert Entry256Ok(40);
    assert Entry256Ok(41);
    assert Entry256Ok(42);
    assert Entry256Ok(43);
    assert Entry256Ok(44);
    assert Entry256Ok(45);
    assert Entry256Ok(46);
    assert Entry256Ok(47);
    forall i | 40 <= i < 48
      ensures Entry256Ok(i)
    {
      assert i == 40 || i == 41 || i == 42 || i == 43 || i == 44 || i == 45 || i == 46 || i == 47;
    }
  }

  lemma Entries256From48()
    ensures forall i | 48 <= i < 56 :: Entry256Ok(i)
  {
    assert Entry256Ok(48);
    assert Entry256Ok(49);
    assert Entry256Ok(50);
    assert Entry256Ok(51);
    assert Entry256Ok(52);
    assert Entry256Ok(53);
    assert Entry256Ok(54);
    assert Entry256Ok(55);
    forall i | 48 <= i < 56
      ensures Entry256Ok(i)
    {
      assert i == 48 || i == 49 || i == 50 || i == 51 || i == 52 || i == 53 || i == 54 || i == 55;
    }
  }

  lemma Entries256From56()
    ensures forall i | 56 <= i < 64 :: Entry256Ok(i)
  {
    assert Entry256Ok(56);
    assert Entry256Ok(57);
    assert Entry256Ok(58);
    assert Entry256Ok(59);
    assert Entry256Ok(60);
    assert Entry256Ok(61);
    assert Entry256Ok(62);
    assert Entry256Ok(63);
    forall i | 56 <= i < 64
      ensures Entry256Ok(i)
    {
      assert i == 56 || i == 57 || i == 58 || i == 59 || i == 60 || i == 61 || i == 62 || i == 63;
    }
  }

  lemma Entries256From64()
    ensures forall i | 64 <= i < 72 :: Entry256Ok(i)
  {
    assert Entry256Ok(64);
    assert Entry256Ok(65);
    assert Entry256Ok(66);
    assert Entry256Ok(67);
    assert Entry256Ok(68);
    assert Entry256Ok(69);
    assert Entry256Ok(70);
    assert Entry256Ok(71);
    forall i | 64 <= i < 72
      ensures Entry256Ok(i)
    {
      assert i == 64 || i == 65 || i == 66 || i == 67 || i == 68 || i == 69 || i == 70 || i == 71;
    }
  }

  lemma Entries256From72()
    ensures forall i | 72 <= i < 80 :: Entry256Ok(i)
  {
    assert Entry256Ok(72);
    assert Entry256Ok(73);
    assert Entry256Ok(74);
    assert Entry256Ok(75);
    assert Entry256Ok(76);
    assert Entry256Ok(77);
    assert Entry256Ok(78);
    assert Entry256Ok(79);
    forall i | 72 <= i < 80
      ensures Entry256Ok(i)
    {
      assert i == 72 || i == 73 || i == 74 || i == 75 || i == 76 || i == 77 || i == 78 || i == 79;
    }
  }

  lemma Entries256From80()
    ensures forall i | 80 <= i < 88 :: Entry256Ok(i)
  {
    assert Entry256Ok(80);
    assert Entry256Ok(81);
    assert Entry256Ok(82);
    assert Entry256Ok(83);
    assert Entry256Ok(84);
    assert Entry256Ok(85);
    assert Entry256Ok(86);
    assert Entry256Ok(87);
    forall i | 80 <= i < 88
      ensures Entry256Ok(i)
    {
      assert i == 80 || i == 81 || i == 82 || i == 83 || i == 84 || i == 85 || i == 86 || i == 87;
    }
  }

  lemma Entries256From88()
    ensures forall i | 88 <= i < 96 :: Entry256Ok(i)
  {
    assert Entry256Ok(88);
    assert Entry256Ok(89);
    assert Entry256Ok(90);
    assert Entry256Ok(91);
    assert Entry256Ok(92);
    assert Entry256Ok(93);
    assert Entry256Ok(94);
    assert Entry256Ok(95);
    forall i | 88 <= i < 96
      ensures Entry256Ok(i)
    {
      assert i == 88 || i == 89 || i == 90 || i == 91 || i == 92 || i == 93 || i == 94 || i == 95;
    }
  }

  lemma Entries256From96()
    ensures forall i | 96 <= i < 104 :: Entry256Ok(i)
  {
    assert Entry256Ok(96);
    assert Entry256Ok(97);
    assert Entry256Ok(98);
    assert Entry256Ok(99);
    assert Entry256Ok(100);
    assert Entry256Ok(101);
    assert Entry256Ok(102);
    assert Entry256Ok(103);
    forall i | 96 <= i < 104
      ensures Entry256Ok(i)
    {
      assert i == 96 || i == 97 || i == 98 || i == 99 || i == 100 || i == 101 || i == 102 || i == 103;
    }
  }

  lemma Entries256From104()
    ensures forall i | 104 <= i < 112 :: Entry256Ok(i)
  {
    assert Entry256Ok(104);
    assert Entry256Ok(105);
    assert Entry256Ok(106);
    assert Entry256Ok(107);
    assert Entry256Ok(108);
    assert Entry256Ok(109);
    assert Entry256Ok(110);
    assert Entry256Ok(111);
    forall i | 104 <= i < 112
      ensures Entry256Ok(i)
    {
      assert i == 104 || i == 105 || i == 106 || i == 107 || i == 108 || i == 109 || i == 110 || i == 111;
    }
  }

  lemma Entries256From112()
    ensures forall i | 112 <= i < 120 :: Entry256Ok(i)
  {
    assert Entry256Ok(112);
    assert Entry256Ok(113);
    assert Entry256Ok(114);
    assert Entry256Ok(115);
    assert Entry256Ok(116);
    assert Entry256Ok(117);
    assert Entry256Ok(118);
    assert Entry256Ok(119);
    forall i | 112 <= i < 120
      ensures Entry256Ok(i)
    {
      assert i == 112 || i == 113 || i == 114 || i == 115 || i == 116 || i == 117 || i == 118 || i == 119;
    }
  }

  lemma Entries256From120()
    ensures forall i | 120 <= i < 128 :: Entry256Ok(i)
  {
    assert Entry256Ok(120);
    assert Entry256Ok(121);
    assert Entry256Ok(122);
    assert Entry256Ok(123);
    assert Entry256Ok(124);
    assert Entry256Ok(125);
    assert Entry256Ok(126);
    assert Entry256Ok(127);
    forall i | 120 <= i < 128
      ensures Entry256Ok(i)
    {
      assert i == 120 || i == 121 || i == 122 || i == 123 || i == 124 || i == 125 || i == 126 || i == 127;
    }
  }

  lemma Entries256From128()
    ensures forall i | 128 <= i < 136 :: Entry256Ok(i)
  {
    assert Entry256Ok(128);
    assert Entry256Ok(129);
    assert Entry256Ok(130);
    assert Entry256Ok(131);
    assert Entry256Ok(132);
    assert Entry256Ok(133);
    assert Entry256Ok(134);
    assert Entry256Ok(135);
    forall i | 128 <= i < 136
      ensures Entry256Ok(i)
    {
      assert i == 128 || i == 129 || i == 130 || i == 131 || i == 132 || i == 133 || i == 134 || i == 135;
    }
  }

  lemma Entries256From136()
    ensures forall i | 136 <= i < 144 :: Entry256Ok(i)
  {
    assert Entry256Ok(136);
    assert Entry256Ok(137);
    assert Entry256Ok(138);
    assert Entry256Ok(139);
    assert Entry256Ok(140);
    assert Entry256Ok(141);
    assert Entry256Ok(142);
    assert Entry256Ok(143);
    forall i | 136 <= i < 144
      ensures Entry256Ok(i)
    {
      assert i == 136 || i == 137 || i == 138 || i == 139 || i == 140 || i == 141 || i == 142 || i == 143;
    }
  }

  lemma Entries256From144()
    ensures forall i | 144 <= i < 152 :: Entry256Ok(i)
  {
    assert Entry256Ok(144);
    assert Entry256Ok(145);
    assert Entry256Ok(146);
    assert Entry256Ok(147);
    assert Entry256Ok(148);
    assert Entry256Ok(149);
    assert Entry256Ok(150);
    assert Entry256Ok(151);
    forall i | 144 <= i < 152
      ensures Entry256Ok(i)
    {
      assert i == 144 || i == 145 || i == 146 || i == 147 || i == 148 || i == 149 || i == 150 || i == 151;
    }
  }

  lemma Entries256From152()
    ensures forall i | 152 <= i < 160 :: Entry256Ok(i)
  {
    assert Entry256Ok(152);
    assert Entry256Ok(153);
    assert Entry256Ok(154);
    assert Entry256Ok(155);
    assert Entry256Ok(156);
    assert Entry256Ok(157);
    assert Entry256Ok(158);
    assert Entry256Ok(159);
    forall i | 152 <= i < 160
      ensures Entry256Ok(i)
    {
      assert i == 152 || i == 153 || i == 154 || i == 155 || i == 156 || i == 157 || i == 158 || i == 159;
    }
  }

  lemma Entries256From160()
    ensures forall i | 160 <= i < 168 :: Entry256Ok(i)
  {
    assert Entry256Ok(160);
    assert Entry256Ok(161);
    assert Entry256Ok(162);
    assert Entry256Ok(163);
    assert Entry256Ok(164);
    assert Entry256Ok(165);
    assert Entry256Ok(166);
    assert Entry256Ok(167);
    forall i | 160 <= i < 168
      ensures Entry256Ok(i)
    {
      assert i == 160 || i == 161 || i == 162 || i == 163 || i == 164 || i == 165 || i == 166 || i == 167;
    }
  }

  lemma Entries256From168()
    ensures forall i | 168 <= i < 176 :: Entry256Ok(i)
  {
    assert Entry256Ok(168);
    assert Entry256Ok(169);
    assert Entry256Ok(170);
    assert Entry256Ok(171);
    assert Entry256Ok(172);
    assert Entry256Ok(173);
    assert Entry256Ok(174);
    assert Entry256Ok(175);
    forall i | 168 <= i < 176
      ensures Entry256Ok(i)
    {
      assert i == 168 || i == 169 || i == 170 || i == 171 || i == 172 || i == 173 || i == 174 || i == 175;
    }
  }

  lemma Entries256From176()
    ensures forall i | 176 <= i < 184 :: Entry256Ok(i)
  {
    assert Entry256Ok(176);
    assert Entry256Ok(177);
    assert Entry256Ok(178);
    assert Entry256Ok(179);
    assert Entry256Ok(180);
    assert Entry256Ok(181);
    assert Entry256Ok(182);
    assert Entry256Ok(183);
    forall i | 176 <= i < 184
      ensures Entry256Ok(i)
    {
      assert i == 176 || i == 177 || i == 178 || i == 179 || i == 180 || i == 181 || i == 182 || i == 183;
    }
  }

  lemma Entries256From184()
    ensures forall i | 184 <= i < 192 :: Entry256Ok(i)
  {
    assert Entry256Ok(184);
    assert Entry256Ok(185);
    assert Entry256Ok(186);
    assert Entry256Ok(187);
    assert Entry256Ok(188);
    assert Entry256Ok(189);
    assert Entry256Ok(190);
    assert Entry256Ok(191);
    forall i | 184 <= i < 192
      ensures Entry256Ok(i)
    {
      assert i == 184 || i == 185 || i == 186 || i == 187 || i == 188 || i == 189 || i == 190 || i == 191;
    }
  }

  lemma Entries256From192()
    ensures forall i | 192 <= i < 200 :: Entry256Ok(i)
  {
    assert Entry256Ok(192);
    assert Entry256Ok(193);
    assert Entry256Ok(194);
    assert Entry256Ok(195);
    assert Entry256Ok(196);
    assert Entry256Ok(197);
    assert Entry256Ok(198);
    assert Entry256Ok(199);
    forall i | 192 <= i < 200
      ensures Entry256Ok(i)
    {
      assert i == 192 || i == 193 || i == 194 || i == 195 || i == 196 || i == 197 || i == 198 || i == 199;
    }
  }

  lemma Entries256From200()
    ensures forall i | 200 <= i < 208 :: Entry256Ok(i)
  {
    assert Entry256Ok(200);
    assert Entry256Ok(201);
    assert Entry256Ok(202);
    assert Entry256Ok(203);
    assert Entry256Ok(204);
    assert Entry256Ok(205);
    assert Entry256Ok(206);
    assert Entry256Ok(207);
    forall i | 200 <= i < 208
      ensures Entry256Ok(i)
    {
      assert i == 200 || i == 201 || i == 202 || i == 203 || i == 204 || i == 205 || i == 206 || i == 207;
    }
  }

  lemma Entries256From208()
    ensures forall i | 208 <= i < 216 :: Entry256Ok(i)
  {
    assert Entry256Ok(208);
    assert Entry256Ok(209);
    assert Entry256Ok(210);
    assert Entry256Ok(211);
    assert Entry256Ok(212);
    assert Entry256Ok(213);
    assert Entry256Ok(214);
    assert Entry256Ok(215);
    forall i | 208 <= i < 216
      ensures Entry256Ok(i)
    {
      assert i == 208 || i == 209 || i == 210 || i == 211 || i == 212 || i == 213 || i == 214 || i == 215;
    }
  }

  lemma Entries256From216()
    ensures forall i | 216 <= i < 224 :: Entry256Ok(i)
  {
    assert Entry256Ok(216);
    assert Entry256Ok(217);
    assert Entry256Ok(218);
    assert Entry256Ok(219);
    assert Entry256Ok(220);
    assert Entry256Ok(221);
    assert Entry256Ok(222);
    assert Entry256Ok(223);
    forall i | 216 <= i < 224
      ensures Entry256Ok(i)
    {
      assert i == 216 || i == 217 || i == 218 || i == 219 || i == 220 || i == 221 || i == 222 || i == 223;
    }
  }

  lemma Entries256From224()
    ensures forall i | 224 <= i < 232 :: Entry256Ok(i)
  {
    assert Entry256Ok(224);
    assert Entry256Ok(225);
    assert Entry256Ok(226);
    assert Entry256Ok(227);
    assert Entry256Ok(228);
    assert Entry256Ok(229);
    assert Entry256Ok(230);
    assert Entry256Ok(231);
    forall i | 224 <= i < 232
      ensures Entry256Ok(i)
    {
      assert i == 224 || i == 225 || i == 226 || i == 227 || i == 228 || i == 229 || i == 230 || i == 231;
    }
  }

  lemma Entries256From232()
    ensures forall i | 232 <= i < 240 :: Entry256Ok(i)
  {
    assert Entry256Ok(232);
    assert Entry256Ok(233);
    assert Entry256Ok(234);
    assert Entry256Ok(235);
    assert Entry256Ok(236);
    assert Entry256Ok(237);
    assert Entry256Ok(238);
    assert Entry256Ok(239);
    forall i | 232 <= i < 240
      ensures Entry256Ok(i)
    {
      assert i == 232 || i == 233 || i == 234 || i == 235 || i == 236 || i == 237 || i == 238 || i == 239;
    }
  }

  lemma Entries256From240()
    ensures forall i | 240 <= i < 248 :: Entry256Ok(i)
  {
    assert Entry256Ok(240);
    assert Entry256Ok(241);
    assert Entry256Ok(242);
    assert Entry256Ok(243);
    assert Entry256Ok(244);
    assert Entry256Ok(245);
    assert Entry256Ok(246);
    assert Entry256Ok(247);
    forall i | 240 <= i < 248
      ensures Entry256Ok(i)
    {
      assert i == 240 || i == 241 || i == 242 || i == 243 || i == 244 || i == 245 || i == 246 || i == 247;
    }
  }

  lemma Entries256From248()
    ensures forall i | 248 <= i < 256 :: Entry256Ok(i)
  {
    assert Entry256Ok(248);
    assert Entry256Ok(249);
    assert Entry256Ok(250);
    assert Entry256Ok(251);
    assert Entry256Ok(252);
    assert Entry256Ok(253);
    assert Entry256Ok(254);
    assert Entry256Ok(255);
    forall i | 248 <= i < 256
      ensures Entry256Ok(i)
    {
      assert i == 248 || i == 249 || i == 250 || i == 251 || i == 252 || i == 253 || i == 254 || i == 255;
    }
  }

  lemma Entries256()
    ensures forall i | 0 <= i < 256 :: Entry256Ok(i)
  {
    Entries256From0();
    Entries256From8();
    Entries256From16();
    Entries256From24();
    Entries256From32();
    Entries256From40();
    Entries256From48();
    Entries256From56();
    Entries256From64();
    Entries256From72();
    Entries256From80();
    Entries256From88();
    Entries256From96();
    Entries256From104();
    Entries256From112();
    Entries256From120();
    Entries256From128();
    Entries256From136();
    Entries256From144();
    Entries256From152();
    Entries256From160();
    Entries256From168();
    Entries256From176();
    Entries256From184();
    Entries256From192();
    Entries256From200();
    Entries256From208();
    Entries256From216();
    Entries256From224();
    Entries256From232();
    Entries256From240();
    Entries256From248();
  }


  /** Entry i of both tables for N = 512 satisfies the recurrences. */
  predicate Entry512Ok(i: int)
    requires 0 <= i < 512
  {
    && R512(i) == R512(0) * W512(i) % 12289
    && (i >= 1 ==> W512(i) == W512(i - 1) * W512(1) % 12289)
  }

  lemma Entries512From0()
    ensures forall i | 0 <= i < 8 :: Entry512Ok(i)
  {
    assert Entry512Ok(0);
    assert Entry512Ok(1);
    assert Entry512Ok(2);
    assert Entry512Ok(3);
    assert Entry512Ok(4);
    assert Entry512Ok(5);
    assert Entry512Ok(6);
    assert Entry512Ok(7);
    forall i | 0 <= i < 8
      ensures Entry512Ok(i)
    {
      assert i == 0 || i == 1 || i == 2 || i == 3 || i == 4 || i == 5 || i == 6 || i == 7;
    }
  }

  lemma Entries512From8()
    ensures forall i | 8 <= i < 16 :: Entry512Ok(i)
  {
    assert Entry512Ok(8);
    assert Entry512Ok(9);
    assert Entry512Ok(10);
    assert Entry512Ok(11);
    assert Entry512Ok(12);
    assert Entry512Ok(13);
    assert Entry512Ok(14);
    assert Entry512Ok(15);
    forall i | 8 <= i < 16
      ensures Entry512Ok(i)
    {
      assert i == 8 || i == 9 || i == 10 || i == 11 || i == 12 || i == 13 || i == 14 || i == 15;
    }
  }

  lemma Entries512From16()
    ensures forall i | 16 <= i < 24 :: Entry512Ok(i)
  {
    assert Entry512Ok(16);
    assert Entry512Ok(17);
    assert Entry512Ok(18);
    assert Entry512Ok(19);
    assert Entry512Ok(20);
    assert Entry512Ok(21);
    assert Entry512Ok(22);
    assert Entry512Ok(23);
    forall i | 16 <= i < 24
      ensures Entry512Ok(i)
    {
      assert i == 16 || i == 17 || i == 18 || i == 19 || i == 20 || i == 21 || i == 22 || i == 23;
    }
  }

  lemma Entries512From24()
    ensures forall i | 24 <= i < 32 :: Entry512Ok(i)
  {
    assert Entry512Ok(24);
    assert Entry512Ok(25);
    assert Entry512Ok(26);
    assert Entry512Ok(27);
    assert Entry512Ok(28);
    assert Entry512Ok(29);
    assert Entry512Ok(30);
    assert Entry512Ok(31);
    forall i | 24 <= i < 32
      ensures Entry512Ok(i)
    {
      assert i == 24 || i == 25 || i == 26 || i == 27 || i == 28 || i == 29 || i == 30 || i == 31;
    }
  }

  lemma Entries512From32()
    ensures forall i | 32 <= i < 40 :: Entry512Ok(i)
  {
    assert Entry512Ok(32);
    assert Entry512Ok(33);
    assert Entry512Ok(34);
    assert Entry512Ok(35);
    assert Entry512Ok(36);
    assert Entry512Ok(37);
    assert Entry512Ok(38);
    assert Entry512Ok(39);
    forall i | 32 <= i < 40
      ensures Entry512Ok(i)
    {
      assert i == 32 || i == 33 || i == 34 || i == 35 || i == 36 || i == 37 || i == 38 || i == 39;
    }
  }

  lemma Entries512From40()
    ensures forall i | 40 <= i < 48 :: Entry512Ok(i)
  {
    assert Entry512Ok(40);
    assert Entry512Ok(41);
    assert Entry512Ok(42);
    assert Entry512Ok(43);
    assert Entry512Ok(44);
    assert Entry512Ok(45);
    assert Entry512Ok(46);
    assert Entry512Ok(47);
    forall i | 40 <= i < 48
      ensures Entry512Ok(i)
    {
      assert i == 40 || i == 41 || i == 42 || i == 43 || i == 44 || i == 45 || i == 46 || i == 47;
    }
  }

  lemma Entries512From48()
    ensures forall i | 48 <= i < 56 :: Entry512Ok(i)
  {
    assert Entry512Ok(48);
    assert Entry512Ok(49);
    assert Entry512Ok(50);
    assert Entry512Ok(51);
    assert Entry512Ok(52);
    assert Entry512Ok(53);
    assert Entry512Ok(54);
    assert Entry512Ok(55);
    forall i | 48 <= i < 56
      ensures Entry512Ok(i)
    {
      assert i == 48 || i == 49 || i == 50 || i == 51 || i == 52 || i == 53 || i == 54 || i == 55;
    }
  }

  lemma Entries512From56()
    ensures forall i | 56 <= i < 64 :: Entry512Ok(i)
  {
    assert Entry512Ok(56);
    assert Entry512Ok(57);
    assert Entry512Ok(58);
    assert Entry512Ok(59);
    assert Entry512Ok(60);
    assert Entry512Ok(61);
    assert Entry512Ok(62);
    assert Entry512Ok(63);
    forall i | 56 <= i < 64
      ensures Entry512Ok(i)
    {
      assert i == 56 || i == 57 || i == 58 || i == 59 || i == 60 || i == 61 || i == 62 || i == 63;
    }
  }

  lemma Entries512From64()
    ensures forall i | 64 <= i < 72 :: Entry512Ok(i)
  {
    assert Entry512Ok(64);
    assert Entry512Ok(65);
    assert Entry512Ok(66);
    assert Entry512Ok(67);
    assert Entry512Ok(68);
    assert Entry512Ok(69);
    assert Entry512Ok(70);
    assert Entry512Ok(71);
    forall i | 64 <= i < 72
      ensures Entry512Ok(i)
    {
      assert i == 64 || i == 65 || i == 66 || i == 67 || i == 68 || i == 69 || i == 70 || i == 71;
    }
  }

  lemma Entries512From72()
    ensures forall i | 72 <= i < 80 :: Entry512Ok(i)
  {
    assert Entry512Ok(72);
    assert Entry512Ok(73);
    assert Entry512Ok(74);
    assert Entry512Ok(75);
    assert Entry512Ok(76);
    assert Entry512Ok(77);
    assert Entry512Ok(78);
    assert Entry512Ok(79);
    forall i | 72 <= i < 80
      ensures Entry512Ok(i)
    {
      assert i == 72 || i == 73 || i == 74 || i == 75 || i == 76 || i == 77 || i == 78 || i == 79;
    }
  }

  lemma Entries512From80()
    ensures forall i | 80 <= i < 88 :: Entry512Ok(i)
  {
    assert Entry512Ok(80);
    assert Entry512Ok(81);
    assert Entry512Ok(82);
    assert Entry512Ok(83);
    assert Entry512Ok(84);
    assert Entry512Ok(85);
    assert Entry512Ok(86);
    assert Entry512Ok(87);
    forall i | 80 <= i < 88
      ensures Entry512Ok(i)
    {
      assert i == 80 || i == 81 || i == 82 || i == 83 || i == 84 || i == 85 || i == 86 || i == 87;
    }
  }

  lemma Entries512From88()
    ensures forall i | 88 <= i < 96 :: Entry512Ok(i)
  {
    assert Entry512Ok(88);
    assert Entry512Ok(89);
    assert Entry512Ok(90);
    assert Entry512Ok(91);
    assert Entry512Ok(92);
    assert Entry512Ok(93);
    assert Entry512Ok(94);
    assert Entry512Ok(95);
    forall i | 88 <= i < 96
      ensures Entry512Ok(i)
    {
      assert i == 88 || i == 89 || i == 90 || i == 91 || i == 92 || i == 93 || i == 94 || i == 95;
    }
  }

  lemma Entries512From96()
    ensures forall i | 96 <= i < 104 :: Entry512Ok(i)
  {
    assert Entry512Ok(96);
    assert Entry512Ok(97);
    assert Entry512Ok(98);
    assert Entry512Ok(99);
    assert Entry512Ok(100);
    assert Entry512Ok(101);
    assert Entry512Ok(102);
    assert Entry512Ok(103);
    forall i | 96 <= i < 104
      ensures Entry512Ok(i)
    {
      assert i == 96 || i == 97 || i == 98 || i == 99 || i == 100 || i == 101 || i == 102 || i == 103;
    }
  }

  lemma Entries512From104()
    ensures forall i | 104 <= i < 112 :: Entry512Ok(i)
  {
    assert Entry512Ok(104);
    assert Entry512Ok(105);
    assert Entry512Ok(106);
    assert Entry512Ok(107);
    assert Entry512Ok(108);
    assert Entry512Ok(109);
    assert Entry512Ok(110);
    assert Entry512Ok(111);
    forall i | 104 <= i < 112
      ensures Entry512Ok(i)
    {
      assert i == 104 || i == 105 || i == 106 || i == 107 || i == 108 || i == 109 || i == 110 || i == 111;
    }
  }

  lemma Entries512From112()
    ensures forall i | 112 <= i < 120 :: Entry512Ok(i)
  {
    assert Entry512Ok(112);
    assert Entry512Ok(113);
    assert Entry512Ok(114);
    assert Entry512Ok(115);
    assert Entry512Ok(116);
    assert Entry512Ok(117);
    assert Entry512Ok(118);
    assert Entry512Ok(119);
    forall i | 112 <= i < 120
      ensures Entry512Ok(i)
    {
      assert i == 112 || i == 113 || i == 114 || i == 115 || i == 116 || i == 117 || i == 118 || i == 119;
    }
  }

  lemma Entries512From120()
    ensures forall i | 120 <= i < 128 :: Entry512Ok(i)
  {
    assert Entry512Ok(120);
    assert Entry512Ok(121);
    assert Entry512Ok(122);
    assert Entry512Ok(123);
    assert Entry512Ok(124);
    assert Entry512Ok(125);
    assert Entry512Ok(126);
    assert Entry512Ok(127);
    forall i | 120 <= i < 128
      ensures Entry512Ok(i)
    {
      assert i == 120 || i == 121 || i == 122 || i == 123 || i == 124 || i == 125 || i == 126 || i == 127;
    }
  }

  lemma Entries512From128()
    ensures forall i | 128 <= i < 136 :: Entry512Ok(i)
  {
    assert Entry512Ok(128);
    assert Entry512Ok(129);
    assert Entry512Ok(130);
    assert Entry512Ok(131);
    assert Entry512Ok(132);
    assert Entry512Ok(133);
    assert Entry512Ok(134);
    assert Entry512Ok(135);
    forall i | 128 <= i < 136
      ensures Entry512Ok(i)
    {
      assert i == 128 || i == 129 || i == 130 || i == 131 || i == 132 || i == 133 || i == 134 || i == 135;
    }
  }

  lemma Entries512From136()
    ensures forall i | 136 <= i < 144 :: Entry512Ok(i)
  {
    assert Entry512Ok(136);
    assert Entry512Ok(137);
    assert Entry512Ok(138);
    assert Entry512Ok(139);
    assert Entry512Ok(140);
    assert Entry512Ok(141);
    assert Entry512Ok(142);
    assert Entry512Ok(143);
    forall i | 136 <= i < 144
      ensures Entry512Ok(i)
    {
      assert i == 136 || i == 137 || i == 138 || i == 139 || i == 140 || i == 141 || i == 142 || i == 143;
    }
  }

  lemma Entries512From144()
    ensures forall i | 144 <= i < 152 :: Entry512Ok(i)
  {
    assert Entry512Ok(144);
    assert Entry512Ok(145);
    assert Entry512Ok(146);
    assert Entry512Ok(147);
    assert Entry512Ok(148);
    assert Entry512Ok(149);
    assert Entry512Ok(150);
    assert Entry512Ok(151);
    forall i | 144 <= i < 152
      ensures Entry512Ok(i)
    {
      assert i == 144 || i == 145 || i == 146 || i == 147 || i == 148 || i == 149 || i == 150 || i == 151;
    }
  }

  lemma Entries512From152()
    ensures forall i | 152 <= i < 160 :: Entry512Ok(i)
  {
    assert Entry512Ok(152);
    assert Entry512Ok(153);
    assert Entry512Ok(154);
    assert Entry512Ok(155);
    assert Entry512Ok(156);
    assert Entry512Ok(157);
    assert Entry512Ok(158);
    assert Entry512Ok(159);
    forall i | 152 <= i < 160
      ensures Entry512Ok(i)
    {
      assert i == 152 || i == 153 || i == 154 || i == 155 || i == 156 || i == 157 || i == 158 || i == 159;
    }
  }

  lemma Entries512From160()
    ensures forall i | 160 <= i < 168 :: Entry512Ok(i)
  {
    assert Entry512Ok(160);
    assert Entry512Ok(161);
    assert Entry512Ok(162);
    assert Entry512Ok(163);
    assert Entry512Ok(164);
    assert Entry512Ok(165);
    assert Entry512Ok(166);
    assert Entry512Ok(167);
    forall i | 160 <= i < 168
      ensures Entry512Ok(i)
    {
      assert i == 160 || i == 161 || i == 162 || i == 163 || i == 164 || i == 165 || i == 166 || i == 167;
    }
  }

  lemma Entries512From168()
    ensures forall i | 168 <= i < 176 :: Entry512Ok(i)
  {
    assert Entry512Ok(168);
    assert Entry512Ok(169);
    assert Entry512Ok(170);
    assert Entry512Ok(171);
    assert Entry512Ok(172);
    assert Entry512Ok(173);
    assert Entry512Ok(174);
    assert Entry512Ok(175);
    forall i | 168 <= i < 176
      ensures Entry512Ok(i)
    {
      assert i == 168 || i == 169 || i == 170 || i == 171 || i == 172 || i == 173 || i == 174 || i == 175;
    }
  }

  lemma Entries512From176()
    ensures forall i | 176 <= i < 184 :: Entry512Ok(i)
  {
    assert Entry512Ok(176);
    assert Entry512Ok(177);
    assert Entry512Ok(178);
    assert Entry512Ok(179);
    assert Entry512Ok(180);
    assert Entry512Ok(181);
    assert Entry512Ok(182);
    assert Entry512Ok(183);
    forall i | 176 <= i < 184
      ensures Entry512Ok(i)
    {
      assert i == 176 || i == 177 || i == 178 || i == 179 || i == 180 || i == 181 || i == 182 || i == 183;
    }
  }

  lemma Entries512From184()
    ensures forall i | 184 <= i < 192 :: Entry512Ok(i)
  {
    assert Entry512Ok(184);
    assert Entry512Ok(185);
    assert Entry512Ok(186);
    assert Entry512Ok(187);
    assert Entry512Ok(188);
    assert Entry512Ok(189);
    assert Entry512Ok(190);
    assert Entry512Ok(191);
    forall i | 184 <= i < 192
      ensures Entry512Ok(i)
    {
      assert i == 184 || i == 185 || i == 186 || i == 187 || i == 188 || i == 189 || i == 190 || i == 191;
    }
  }

  lemma Entries512From192()
    ensures forall i | 192 <= i < 200 :: Entry512Ok(i)
  {
    assert Entry512Ok(192);
    assert Entry512Ok(193);
    assert Entry512Ok(194);
    assert Entry512Ok(195);
    assert Entry512Ok(196);
    assert Entry512Ok(197);
    assert Entry512Ok(198);
    assert Entry512Ok(199);
    forall i | 192 <= i < 200
      ensures Entry512Ok(i)
    {
      assert i == 192 || i == 193 || i == 194 || i == 195 || i == 196 || i == 197 || i == 198 || i == 199;
    }
  }

  lemma Entries512From200()
    ensures forall i | 200 <= i < 208 :: Entry512Ok(i)
  {
    assert Entry512Ok(200);
    assert Entry512Ok(201);
    assert Entry512Ok(202);
    assert Entry512Ok(203);
    assert Entry512Ok(204);
    assert Entry512Ok(205);
    assert Entry512Ok(206);
    assert Entry512Ok(207);
    forall i | 200 <= i < 208
      ensures Entry512Ok(i)
    {
      assert i == 200 || i == 201 || i == 202 || i == 203 || i == 204 || i == 205 || i == 206 || i == 207;
    }
  }

  lemma Entries512From208()
    ensures forall i | 208 <= i < 216 :: Entry512Ok(i)
  {
    assert Entry512Ok(208);
    assert Entry512Ok(209);
    assert Entry512Ok(210);
    assert Entry512Ok(211);
    assert Entry512Ok(212);
    assert Entry512Ok(213);
    assert Entry512Ok(214);
    assert Entry512Ok(215);
    forall i | 208 <= i < 216
      ensures Entry512Ok(i)
    {
      assert i == 208 || i == 209 || i == 210 || i == 211 || i == 212 || i == 213 || i == 214 || i == 215;
    }
  }

  lemma Entries512From216()
    ensures forall i | 216 <= i < 224 :: Entry512Ok(i)
  {
    assert Entry512Ok(216);
    assert Entry512Ok(217);
    assert Entry512Ok(218);
    assert Entry512Ok(219);
    assert Entry512Ok(220);
    assert Entry512Ok(221);
    assert Entry512Ok(222);
    assert Entry512Ok(223);
    forall i | 216 <= i < 224
      ensures Entry512Ok(i)
    {
      assert i == 216 || i == 217 || i == 218 || i == 219 || i == 220 || i == 221 || i == 222 || i == 223;
    }
  }

  lemma Entries512From224()
    ensures forall i | 224 <= i < 232 :: Entry512Ok(i)
  {
    assert Entry512Ok(224);
    assert Entry512Ok(225);
    assert Entry512Ok(226);
    assert Entry512Ok(227);
    assert Entry512Ok(228);
    assert Entry512Ok(229);
    assert Entry512Ok(230);
    assert Entry512Ok(231);
    forall i | 224 <= i < 232
      ensures Entry512Ok(i)
    {
      assert i == 224 || i == 225 || i == 226 || i == 227 || i == 228 || i == 229 || i == 230 || i == 231;
    }
  }

  lemma Entries512From232()
    ensures forall i | 232 <= i < 240 :: Entry512Ok(i)
  {
    assert Entry512Ok(232);
    assert Entry512Ok(233);
    assert Entry512Ok(234);
    assert Entry512Ok(235);
    assert Entry512Ok(236);
    assert Entry512Ok(237);
    assert Entry512Ok(238);
    assert Entry512Ok(239);
    forall i | 232 <= i < 240
      ensures Entry512Ok(i)
    {
      assert i == 232 || i == 233 || i == 234 || i == 235 || i == 236 || i == 237 || i == 238 || i == 239;
    }
  }

  lemma Entries512From240()
    ensures forall i | 240 <= i < 248 :: Entry512Ok(i)
  {
    assert Entry512Ok(240);
    assert Entry512Ok(241);
    assert Entry512Ok(242);
    assert Entry512Ok(243);
    assert Entry512Ok(244);
    assert Entry512Ok(245);
    assert Entry512Ok(246);
    assert Entry512Ok(247);
    forall i | 240 <= i < 248
      ensures Entry512Ok(i)
    {
      assert i == 240 || i == 241 || i == 242 || i == 243 || i == 244 || i == 245 || i == 246 || i == 247;
    }
  }

  lemma Entries512From248()
    ensures forall i | 248 <= i < 256 :: Entry512Ok(i)
  {
    assert Entry512Ok(248);
    assert Entry512Ok(249);
    assert Entry512Ok(250);
    assert Entry512Ok(251);
    assert Entry512Ok(252);
    assert Entry512Ok(253);
    assert Entry512Ok(254);
    assert Entry512Ok(255);
    forall i | 248 <= i < 256
      ensures Entry512Ok(i)
    {
      assert i == 248 || i == 249 || i == 250 || i == 251 || i == 252 || i == 253 || i == 254 || i == 255;
    }
  }

  lemma Entries512From256()
    ensures forall i | 256 <= i < 264 :: Entry512Ok(i)
  {
    assert Entry512Ok(256);
    assert Entry512Ok(257);
    assert Entry512Ok(258);
    assert Entry512Ok(259);
    assert Entry512Ok(260);
    assert Entry512Ok(261);
    assert Entry512Ok(262);
    assert Entry512Ok(263);
    forall i | 256 <= i < 264
      ensures Entry512Ok(i)
    {
      assert i == 256 || i == 257 || i == 258 || i == 259 || i == 260 || i == 261 || i == 262 || i == 263;
    }
  }

  lemma Entries512From264()
    ensures forall i | 264 <= i < 272 :: Entry512Ok(i)
  {
    assert Entry512Ok(264);
    assert Entry512Ok(265);
    assert Entry512Ok(266);
    assert Entry512Ok(267);
    assert Entry512Ok(268);
    assert Entry512Ok(269);
    assert Entry512Ok(270);
    assert Entry512Ok(271);
    forall i | 264 <= i < 272
      ensures Entry512Ok(i)
    {
      assert i == 264 || i == 265 || i == 266 || i == 267 || i == 268 || i == 269 || i == 270 || i == 271;
    }
  }

  lemma Entries512From272()
    ensures forall i | 272 <= i < 280 :: Entry512Ok(i)
  {
    assert Entry512Ok(272);
    assert Entry512Ok(273);
    assert Entry512Ok(274);
    assert Entry512Ok(275);
    assert Entry512Ok(276);
    assert Entry512Ok(277);
    assert Entry512Ok(278);
    assert Entry512Ok(279);
    forall i | 272 <= i < 280
      ensures Entry512Ok(i)
    {
      assert i == 272 || i == 273 || i == 274 || i == 275 || i == 276 || i == 277 || i == 278 || i == 279;
    }
  }

  lemma Entries512From280()
    ensures forall i | 280 <= i < 288 :: Entry512Ok(i)
  {
    assert Entry512Ok(280);
    assert Entry512Ok(281);
    assert Entry512Ok(282);
    assert Entry512Ok(283);
    assert Entry512Ok(284);
    assert Entry512Ok(285);
    assert Entry512Ok(286);
    assert Entry512Ok(287);
    forall i | 280 <= i < 288
      ensures Entry512Ok(i)
    {
      assert i == 280 || i == 281 || i == 282 || i == 283 || i == 284 || i == 285 || i == 286 || i == 287;
    }
  }

  lemma Entries512From288()
    ensures forall i | 288 <= i < 296 :: Entry512Ok(i)
  {
    assert Entry512Ok(288);
    assert Entry512Ok(289);
    assert Entry512Ok(290);
    assert Entry512Ok(291);
    assert Entry512Ok(292);
    assert Entry512Ok(293);
    assert Entry512Ok(294);
    assert Entry512Ok(295);
    forall i | 288 <= i < 296
      ensures Entry512Ok(i)
    {
      assert i == 288 || i == 289 || i == 290 || i == 291 || i == 292 || i == 293 || i == 294 || i == 295;
    }
  }

  lemma Entries512From296()
    ensures forall i | 296 <= i < 304 :: Entry512Ok(i)
  {
    assert Entry512Ok(296);
    assert Entry512Ok(297);
    assert Entry512Ok(298);
    assert Entry512Ok(299);
    assert Entry512Ok(300);
    assert Entry512Ok(301);
    assert Entry512Ok(302);
    assert Entry512Ok(303);
    forall i | 296 <= i < 304
      ensures Entry512Ok(i)
    {
      assert i == 296 || i == 297 || i == 298 || i == 299 || i == 300 || i == 301 || i == 302 || i == 303;
    }
  }

  lemma Entries512From304()
    ensures forall i | 304 <= i < 312 :: Entry512Ok(i)
  {
    assert Entry512Ok(304);
    assert Entry512Ok(305);
    assert Entry512Ok(306);
    assert Entry512Ok(307);
    assert Entry512Ok(308);
    assert Entry512Ok(309);
    assert Entry512Ok(310);
    assert Entry512Ok(311);
    forall i | 304 <= i < 312
      ensures Entry512Ok(i)
    {
      assert i == 304 || i == 305 || i == 306 || i == 307 || i == 308 || i == 309 || i == 310 || i == 311;
    }
  }

  lemma Entries512From312()
    ensures forall i | 312 <= i < 320 :: Entry512Ok(i)
  {
    assert Entry512Ok(312);
    assert Entry512Ok(313);
    assert Entry512Ok(314);
    assert Entry512Ok(315);
    assert Entry512Ok(316);
    assert Entry512Ok(317);
    assert Entry512Ok(318);
    assert Entry512Ok(319);
    forall i | 312 <= i < 320
      ensures Entry512Ok(i)
    {
      assert i == 312 || i == 313 || i == 314 || i == 315 || i == 316 || i == 317 || i == 318 || i == 319;
    }
  }

  lemma Entries512From320()
    ensures forall i | 320 <= i < 328 :: Entry512Ok(i)
  {
    assert Entry512Ok(320);
    assert Entry512Ok(321);
    assert Entry512Ok(322);
    assert Entry512Ok(323);
    assert Entry512Ok(324);
    assert Entry512Ok(325);
    assert Entry512Ok(326);
    assert Entry512Ok(327);
    forall i | 320 <= i < 328
      ensures Entry512Ok(i)
    {
      assert i == 320 || i == 321 || i == 322 || i == 323 || i == 324 || i == 325 || i == 326 || i == 327;
    }
  }

  lemma Entries512From328()
    ensures forall i | 328 <= i < 336 :: Entry512Ok(i)
  {
    assert Entry512Ok(328);
    assert Entry512Ok(329);
    assert Entry512Ok(330);
    assert Entry512Ok(331);
    assert Entry512Ok(332);
    assert Entry512Ok(333);
    assert Entry512Ok(334);
    assert Entry512Ok(335);
    forall i | 328 <= i < 336
      ensures Entry512Ok(i)
    {
      assert i == 328 || i == 329 || i == 330 || i == 331 || i == 332 || i == 333 || i == 334 || i == 335;
    }
  }

  lemma Entries512From336()
    ensures forall i | 336 <= i < 344 :: Entry512Ok(i)
  {
    assert Entry512Ok(336);
    assert Entry512Ok(337);
    assert Entry512Ok(338);
    assert Entry512Ok(339);
    assert Entry512Ok(340);
    assert Entry512Ok(341);
    assert Entry512Ok(342);
    assert Entry512Ok(343);
    forall i | 336 <= i < 344
      ensures Entry512Ok(i)
    {
      assert i == 336 || i == 337 || i == 338 || i == 339 || i == 340 || i == 341 || i == 342 || i == 343;
    }
  }

  lemma Entries512From344()
    ensures forall i | 344 <= i < 352 :: Entry512Ok(i)
  {
    assert Entry512Ok(344);
    assert Entry512Ok(345);
    assert Entry512Ok(346);
    assert Entry512Ok(347);
    assert Entry512Ok(348);
    assert Entry512Ok(349);
    assert Entry512Ok(350);
    assert Entry512Ok(351);
    forall i | 344 <= i < 352
      ensures Entry512Ok(i)
    {
      assert i == 344 || i == 345 || i == 346 || i == 347 || i == 348 || i == 349 || i == 350 || i == 351;
    }
  }

  lemma Entries512From352()
    ensures forall i | 352 <= i < 360 :: Entry512Ok(i)
  {
    assert Entry512Ok(352);
    assert Entry512Ok(353);
    assert Entry512Ok(354);
    assert Entry512Ok(355);
    assert Entry512Ok(356);
    assert Entry512Ok(357);
    assert Entry512Ok(358);
    assert Entry512Ok(359);
    forall i | 352 <= i < 360
      ensures Entry512Ok(i)
    {
      assert i == 352 || i == 353 || i == 354 || i == 355 || i == 356 || i == 357 || i == 358 || i == 359;
    }
  }

  lemma Entries512From360()
    ensures forall i | 360 <= i < 368 :: Entry512Ok(i)
  {
    assert Entry512Ok(360);
    assert Entry512Ok(361);
    assert Entry512Ok(362);
    assert Entry512Ok(363);
    assert Entry512Ok(364);
    assert Entry512Ok(365);
    assert Entry512Ok(366);
    assert Entry512Ok(367);
    forall i | 360 <= i < 368
      ensures Entry512Ok(i)
    {
      assert i == 360 || i == 361 || i == 362 || i == 363 || i == 364 || i == 365 || i == 366 || i == 367;
    }
  }

  lemma Entries512From368()
    ensures forall i | 368 <= i < 376 :: Entry512Ok(i)
  {
    assert Entry512Ok(368);
    assert Entry512Ok(369);
    assert Entry512Ok(370);
    assert Entry512Ok(371);
    assert Entry512Ok(372);
    assert Entry512Ok(373);
    assert Entry512Ok(374);
    assert Entry512Ok(375);
    forall i | 368 <= i < 376
      ensures Entry512Ok(i)
    {
      assert i == 368 || i == 369 || i == 370 || i == 371 || i == 372 || i == 373 || i == 374 || i == 375;
    }
  }

  lemma Entries512From376()
    ensures forall i | 376 <= i < 384 :: Entry512Ok(i)
  {
    assert Entry512Ok(376);
    assert Entry512Ok(377);
    assert Entry512Ok(378);
    assert Entry512Ok(379);
    assert Entry512Ok(380);
    assert Entry512Ok(381);
    assert Entry512Ok(382);
    assert Entry512Ok(383);
    forall i | 376 <= i < 384
      ensures Entry512Ok(i)
    {
      assert i == 376 || i == 377 || i == 378 || i == 379 || i == 380 || i == 381 || i == 382 || i == 383;
    }
  }

  lemma Entries512From384()
    ensures forall i | 384 <= i < 392 :: Entry512Ok(i)
  {
    assert Entry512Ok(384);
    assert Entry512Ok(385);
    assert Entry512Ok(386);
    assert Entry512Ok(387);
    assert Entry512Ok(388);
    assert Entry512Ok(389);
    assert Entry512Ok(390);
    assert Entry512Ok(391);
    forall i | 384 <= i < 392
      ensures Entry512Ok(i)
    {
      assert i == 384 || i == 385 || i == 386 || i == 387 || i == 388 || i == 389 || i == 390 || i == 391;
    }
  }

  lemma Entries512From392()
    ensures forall i | 392 <= i < 400 :: Entry512Ok(i)
  {
    assert Entry512Ok(392);
    assert Entry512Ok(393);
    assert Entry512Ok(394);
    assert Entry512Ok(395);
    assert Entry512Ok(396);
    assert Entry512Ok(397);
    assert Entry512Ok(398);
    assert Entry512Ok(399);
    forall i | 392 <= i < 400
      ensures Entry512Ok(i)
    {
      assert i == 392 || i == 393 || i == 394 || i == 395 || i == 396 || i == 397 || i == 398 || i == 399;
    }
  }

  lemma Entries512From400()
    ensures forall i | 400 <= i < 408 :: Entry512Ok(i)
  {
    assert Entry512Ok(400);
    assert Entry512Ok(401);
    assert Entry512Ok(402);
    assert Entry512Ok(403);
    assert Entry512Ok(404);
    assert Entry512Ok(405);
    assert Entry512Ok(406);
    assert Entry512Ok(407);
    forall i | 400 <= i < 408
      ensures Entry512Ok(i)
    {
      assert i == 400 || i == 401 || i == 402 || i == 403 || i == 404 || i == 405 || i == 406 || i == 407;
    }
  }

  lemma Entries512From408()
    ensures forall i | 408 <= i < 416 :: Entry512Ok(i)
  {
    assert Entry512Ok(408);
    assert Entry512Ok(409);
    assert Entry512Ok(410);
    assert Entry512Ok(411);
    assert Entry512Ok(412);
    assert Entry512Ok(413);
    assert Entry512Ok(414);
    assert Entry512Ok(415);
    forall i | 408 <= i < 416
      ensures Entry512Ok(i)
    {
      assert i == 408 || i == 409 || i == 410 || i == 411 || i == 412 || i == 413 || i == 414 || i == 415;
    }
  }

  lemma Entries512From416()
    ensures forall i | 416 <= i < 424 :: Entry512Ok(i)
  {
    assert Entry512Ok(416);
    assert Entry512Ok(417);
    assert Entry512Ok(418);
    assert Entry512Ok(419);
    assert Entry512Ok(420);
    assert Entry512Ok(421);
    assert Entry512Ok(422);
    assert Entry512Ok(423);
    forall i | 416 <= i < 424
      ensures Entry512Ok(i)
    {
      assert i == 416 || i == 417 || i == 418 || i == 419 || i == 420 || i == 421 || i == 422 || i == 423;
    }
  }

  lemma Entries512From424()
    ensures forall i | 424 <= i < 432 :: Entry512Ok(i)
  {
    assert Entry512Ok(424);
    assert Entry512Ok(425);
    assert Entry512Ok(426);
    assert Entry512Ok(427);
    assert Entry512Ok(428);
    assert Entry512Ok(429);
    assert Entry512Ok(430);
    assert Entry512Ok(431);
    forall i | 424 <= i < 432
      ensures Entry512Ok(i)
    {
      assert i == 424 || i == 425 || i == 426 || i == 427 || i == 428 || i == 429 || i == 430 || i == 431;
    }
  }

  lemma Entries512From432()
    ensures forall i | 432 <= i < 440 :: Entry512Ok(i)
  {
    assert Entry512Ok(432);
    assert Entry512Ok(433);
    assert Entry512Ok(434);
    assert Entry512Ok(435);
    assert Entry512Ok(436);
    assert Entry512Ok(437);
    assert Entry512Ok(438);
    assert Entry512Ok(439);
    forall i | 432 <= i < 440
      ensures Entry512Ok(i)
    {
      assert i == 432 || i == 433 || i == 434 || i == 435 || i == 436 || i == 437 || i == 438 || i == 439;
    }
  }

  lemma Entries512From440()
    ensures forall i | 440 <= i < 448 :: Entry512Ok(i)
  {
    assert Entry512Ok(440);
    assert Entry512Ok(441);
    assert Entry512Ok(442);
    assert Entry512Ok(443);
    assert Entry512Ok(444);
    assert Entry512Ok(445);
    assert Entry512Ok(446);
    assert Entry512Ok(447);
    forall i | 440 <= i < 448
      ensures Entry512Ok(i)
    {
      assert i == 440 || i == 441 || i == 442 || i == 443 || i == 444 || i == 445 || i == 446 || i == 447;
    }
  }

  lemma Entries512From448()
    ensures forall i | 448 <= i < 456 :: Entry512Ok(i)
  {
    assert Entry512Ok(448);
    assert Entry512Ok(449);
    assert Entry512Ok(450);
    assert Entry512Ok(451);
    assert Entry512Ok(452);
    assert Entry512Ok(453);
    assert Entry512Ok(454);
    assert Entry512Ok(455);
    forall i | 448 <= i < 456
      ensures Entry512Ok(i)
    {
      assert i == 448 || i == 449 || i == 450 || i == 451 || i == 452 || i == 453 || i == 454 || i == 455;
    }
  }

  lemma Entries512From456()
    ensures forall i | 456 <= i < 464 :: Entry512Ok(i)
  {
    assert Entry512Ok(456);
    assert Entry512Ok(457);
    assert Entry512Ok(458);
    assert Entry512Ok(459);
    assert Entry512Ok(460);
    assert Entry512Ok(461);
    assert Entry512Ok(462);
    assert Entry512Ok(463);
    forall i | 456 <= i < 464
      ensures Entry512Ok(i)
    {
      assert i == 456 || i == 457 || i == 458 || i == 459 || i == 460 || i == 461 || i == 462 || i == 463;
    }
  }

  lemma Entries512From464()
    ensures forall i | 464 <= i < 472 :: Entry512Ok(i)
  {
    assert Entry512Ok(464);
    assert Entry512Ok(465);
    assert Entry512Ok(466);
    assert Entry512Ok(467);
    assert Entry512Ok(468);
    assert Entry512Ok(469);
    assert Entry512Ok(470);
    assert Entry512Ok(471);
    forall i | 464 <= i < 472
      ensures Entry512Ok(i)
    {
      assert i == 464 || i == 465 || i == 466 || i == 467 || i == 468 || i == 469 || i == 470 || i == 471;
    }
  }

  lemma Entries512From472()
    ensures forall i | 472 <= i < 480 :: Entry512Ok(i)
  {
    assert Entry512Ok(472);
    assert Entry512Ok(473);
    assert Entry512Ok(474);
    assert Entry512Ok(475);
    assert Entry512Ok(476);
    assert Entry512Ok(477);
    assert Entry512Ok(478);
    assert Entry512Ok(479);
    forall i | 472 <= i < 480
      ensures Entry512Ok(i)
    {
      assert i == 472 || i == 473 || i == 474 || i == 475 || i == 476 || i == 477 || i == 478 || i == 479;
    }
  }

  lemma Entries512From480()
    ensures forall i | 480 <= i < 488 :: Entry512Ok(i)
  {
    assert Entry512Ok(480);
    assert Entry512Ok(481);
    assert Entry512Ok(482);
    assert Entry512Ok(483);
    assert Entry512Ok(484);
    assert Entry512Ok(485);
    assert Entry512Ok(486);
    assert Entry512Ok(487);
    forall i | 480 <= i < 488
      ensures Entry512Ok(i)
    {
      assert i == 480 || i == 481 || i == 482 || i == 483 || i == 484 || i == 485 || i == 486 || i == 487;
    }
  }

  lemma Entries512From488()
    ensures forall i | 488 <= i < 496 :: Entry512Ok(i)
  {
    assert Entry512Ok(488);
    assert Entry512Ok(489);
    assert Entry512Ok(490);
    assert Entry512Ok(491);
    assert Entry512Ok(492);
    assert Entry512Ok(493);
    assert Entry512Ok(494);
    assert Entry512Ok(495);
    forall i | 488 <= i < 496
      ensures Entry512Ok(i)
    {
      assert i == 488 || i == 489 || i == 490 || i == 491 || i == 492 || i == 493 || i == 494 || i == 495;
    }
  }

  lemma Entries512From496()
    ensures forall i | 496 <= i < 504 :: Entry512Ok(i)
  {
    assert Entry512Ok(496);
    assert Entry512Ok(497);
    assert Entry512Ok(498);
    assert Entry512Ok(499);
    assert Entry512Ok(500);
    assert Entry512Ok(501);
    assert Entry512Ok(502);
    assert Entry512Ok(503);
    forall i | 496 <= i < 504
      ensures Entry512Ok(i)
    {
      assert i == 496 || i == 497 || i == 498 || i == 499 || i == 500 || i == 501 || i == 502 || i == 503;
    }
  }

  lemma Entries512From504()
    ensures forall i | 504 <= i < 512 :: Entry512Ok(i)
  {
    assert Entry512Ok(504);
    assert Entry512Ok(505);
    assert Entry512Ok(506);
    assert Entry512Ok(507);
    assert Entry512Ok(508);
    assert Entry512Ok(509);
    assert Entry512Ok(510);
    assert Entry512Ok(511);
    forall i | 504 <= i < 512
      ensures Entry512Ok(i)
    {
      assert i == 504 || i == 505 || i == 506 || i == 507 || i == 508 || i == 509 || i == 510 || i == 511;
    }
  }

  lemma Entries512()
    ensures forall i | 0 <= i < 512 :: Entry512Ok(i)
  {
    Entries512From0();
    Entries512From8();
    Entries512From16();
    Entries512From24();
    Entries512From32();
    Entries512From40();
    Entries512From48();
    Entries512From56();
    Entries512From64();
    Entries512From72();
    Entries512From80();
    Entries512From88();
    Entries512From96();
    Entries512From104();
    Entries512From112();
    Entries512From120();
    Entries512From128();
    Entries512From136();
    Entries512From144();
    Entries512From152();
    Entries512From160();
    Entries512From168();
    Entries512From176();
    Entries512From184();
    Entries512From192();
    Entries512From200();
    Entries512From208();
    Entries512From216();
    Entries512From224();
    Entries512From232();
    Entries512From240();
    Entries512From248();
    Entries512From256();
    Entries512From264();
    Entries512From272();
    Entries512From280();
    Entries512From288();
    Entries512From296();
    Entries512From304();
    Entries512From312();
    Entries512From320();
    Entries512From328();
    Entries512From336();
    Entries512From344();
    Entries512From352();
    Entries512From360();
    Entries512From368();
    Entries512From376();
    Entries512From384();
    Entries512From392();
    Entries512From400();
    Entries512From408();
    Entries512From416();
    Entries512From424();
    Entries512From432();
    Entries512From440();
    Entries512From448();
    Entries512From456();
    Entries512From464();
    Entries512From472();
    Entries512From480();
    Entries512From488();
    Entries512From496();
    Entries512From504();
  }


}
