/** The 21 numeric nutrient columns shared by the JSON rows, the CSV rows and the feature vector. */
module Nutrients {

  const NutrientColumns: seq<string> := [
    "water_g", "energ_kcal", "protein_g", "lipid_tot_g", "carbohydrt_g", "fiber_td_g",
    "sugar_tot_g", "calcium_mg", "iron_mg", "magnesium_mg", "potassium_mg", "sodium_mg",
    "zinc_mg", "copper_mg", "vit_c_mg", "vit_b6_mg", "vit_b12_ug", "vit_a_iu", "vit_e_mg",
    "vit_d_ug", "cholestrl_mg"
  ]

  const NutrientCount: nat := 21

  /** One value per nutrient column, in the order of `NutrientColumns`. */
  type NutrientValues = v: seq<real> | |v| == NutrientCount witness seq(NutrientCount, _ => 0.0)
}
